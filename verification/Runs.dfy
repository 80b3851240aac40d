/** Runs of the driver: the bus, the timers and the main task produce events, each of which is handled
    before the next one. The level of the line flips at every capture. */
module Runs {
  import opened Dali
  import opened TxSpec
  import opened RxSpec

  /** `now` is the count of the receive timer when the handler reads it, `tick` the time in milliseconds. */
  datatype Event =
    | Capture(count: Word, now: Word, tick: Word)
    | StopMatch(now: Word, tick: Word)
    | PeriodMatch(now: Word)
    | QueryMatch(now: Word, tick: Word)
    | TxMatch(now: Word)
    | Send(frame: TxFrame, now: Word)

  /** The driver and the level of the line, true for active. */
  datatype World = World(node: Node, active: bool)

  predicate Ready(tx: TxState) {
    TxSpec.Valid(tx) && tx.indexMax < COUNT_ARRAY_SIZE
  }

  /** A match interrupt needs its channel; a frame to send must be one the encoder accepts. */
  predicate Enabled(w: World, e: Event) {
    match e
    case Capture(_, _, _) => true
    case StopMatch(_, _) => w.node.rx.stop.on
    case PeriodMatch(_) => w.node.rx.period.on
    case QueryMatch(_, _) => w.node.rx.query.on
    case TxMatch(_) => w.node.tx.timer.on
    case Send(frame, _) => frame.length <= MAX_DATA_LENGTH
  }

  function Step(w: World, e: Event): World
    requires Ready(w.node.tx) && Enabled(w, e)
  {
    match e
    case Capture(count, now, tick) => World(OnCapture(w.node, count, !w.active, now, tick), !w.active)
    case StopMatch(now, tick) => World(OnStopMatch(w.node, w.active, now, tick), w.active)
    case PeriodMatch(_) => World(OnPeriodMatch(w.node), w.active)
    case QueryMatch(_, tick) => World(OnQueryMatch(w.node, tick), w.active)
    case TxMatch(now) => World(OnTxMatch(w.node, now), w.active)
    case Send(frame, now) => World(OnSend(w.node, frame, now), w.active)
  }

  /** `ws[i]` is the world before event `es[i]`. */
  ghost predicate Run(ws: seq<World>, es: seq<Event>) {
    && |ws| == |es| + 1
    && forall i :: 0 <= i < |es| ==> FollowsAt(ws, es, i)
  }

  ghost predicate FollowsAt(ws: seq<World>, es: seq<Event>, i: nat)
    requires |ws| == |es| + 1 && i < |es|
  {
    Follows(ws[i], es[i], ws[i + 1])
  }

  ghost predicate Follows(w: World, e: Event, after: World) {
    Ready(w.node.tx) && Enabled(w, e) && after == Step(w, e)
  }

  /** The events happen at the true times `ts`: captures record the time, match interrupts come when the
      timer reaches the match count, and a call from the transmit interrupt or from the main task reads the
      counter at once. */
  ghost predicate Timed(ws: seq<World>, es: seq<Event>, ts: seq<int>) {
    && Run(ws, es) && |ts| == |es|
    && (forall a, b :: 0 <= a <= b < |ts| ==> ts[a] <= ts[b])
    && forall k :: 0 <= k < |es| ==> OnTimeAt(ws, es, ts, k)
  }

  ghost predicate OnTimeAt(ws: seq<World>, es: seq<Event>, ts: seq<int>, k: nat)
    requires k < |es| == |ts| == |ws| - 1
  {
    OnTime(ws[k].node.rx, es[k], ts[k])
  }

  ghost predicate OnTime(rx: RxState, e: Event, t: int) {
    match e
    case Capture(count, _, _) => count == Wrap(t)
    case StopMatch(_, _) => rx.stop.count == Wrap(t)
    case PeriodMatch(_) => rx.period.count == Wrap(t)
    case QueryMatch(_, _) => rx.query.count == Wrap(t)
    case TxMatch(now) => now == Wrap(t)
    case Send(_, now) => now == Wrap(t)
  }

  /** When the handler of an event that comes at `t` reads the counter. */
  function Handled(e: Event, t: int): int {
    t + Wrap(e.now - t)
  }

  /** When the timer reaches the count of a match, from time `t` on. */
  function Reached(m: Match, t: int): int {
    t + Wrap(m.count - t)
  }

  /** No match interrupt is missed: every event is handled before the next one, and the next one comes no later
      than the count of any channel that is armed. */
  ghost predicate Punctual(ws: seq<World>, es: seq<Event>, ts: seq<int>) {
    && Timed(ws, es, ts)
    && forall k :: 0 < k < |es| ==> PunctualAt(ws, es, ts, k)
  }

  ghost predicate PunctualAt(ws: seq<World>, es: seq<Event>, ts: seq<int>, k: nat)
    requires 0 < k < |es| == |ts| == |ws| - 1
  {
    var rx, rx', e, t := ws[k - 1].node.rx, ws[k].node.rx, es[k - 1], ts[k - 1];
    && Handled(e, t) <= ts[k]
    && (rx'.stop.on ==> ts[k] <= Reached(rx'.stop, Since(rx.stop, rx'.stop, e.StopMatch?, e, t)))
    && (rx'.period.on ==> ts[k] <= Reached(rx'.period, Since(rx.period, rx'.period, e.PeriodMatch?, e, t)))
    && (rx'.query.on ==> ts[k] <= Reached(rx'.query, Since(rx.query, rx'.query, e.QueryMatch?, e, t)))
  }

  /** From when on a channel waits for its count: since its handler armed it, or since the last event, the moment
      of its own match excepted. */
  function Since(m: Match, m': Match, matched: bool, e: Event, t: int): int {
    if m' != m then Handled(e, t) else if matched then t + 1 else t
  }

  function BootWorld(active: bool): World {
    var tx := TxState(seq(COUNT_ARRAY_SIZE, _ => 0), 0, 0, true, 0, false, TxTimer(false, 0, false), false, 0);
    World(Node(tx, Boot(active)), active)
  }

  ghost predicate FromBoot(ws: seq<World>, es: seq<Event>) {
    Run(ws, es) && exists active :: ws[0] == BootWorld(active)
  }

  // ---- what every step keeps ----

  predicate Listening(s: Status) {
    s == IDLE || s == INTER_FRAME_IDLE
  }

  predicate InBit(s: Status) {
    s == START_BIT_START || s == START_BIT_INSIDE || s == DATA_BIT_START || s == DATA_BIT_INSIDE
  }

  /** The line level agrees with what the receiver is waiting for and believes about the current bit. */
  predicate LevelAgrees(w: World) {
    match w.node.rx.status
    case IDLE => !w.active
    case INTER_FRAME_IDLE => !w.active
    case START_BIT_START => w.active && w.node.rx.lastDataBit
    case START_BIT_INSIDE => !w.active && w.node.rx.lastDataBit
    case DATA_BIT_START => w.active == w.node.rx.lastDataBit
    case DATA_BIT_INSIDE => w.active != w.node.rx.lastDataBit
    case ERROR_IN_FRAME => true
    case LOW => w.active
    case FAILURE => w.active
  }

  /** The frame under construction is empty while listening, without error inside a bit, and without data behind an
      error. */
  predicate FrameAgrees(rx: RxState) {
    && (Listening(rx.status) ==> rx.frame == EMPTY_FRAME)
    && (InBit(rx.status) ==> rx.frame.code == OK && !rx.frame.twice)
    && (rx.status == ERROR_IN_FRAME ==> rx.frame.length == 0)
    && rx.lastFrame.code == OK && !rx.lastFrame.twice
  }

  /** The period channel is armed only while listening; the stop-bit channel waits for a stop condition, or
      in LOW for a power failure. */
  predicate TimersAgree(rx: RxState) {
    && (rx.period.on ==> Listening(rx.status))
    && (rx.status == INTER_FRAME_IDLE ==> rx.period.on)
    && rx.edgeCount == rx.lastEdgeCount
    && (rx.status == LOW ==> rx.stop == Match(Wrap(rx.lastEdgeCount + MIN_FAILURE), true))
    && (rx.status == FAILURE ==> !rx.stop.on)
    && (rx.stop.on && rx.status != LOW ==> rx.stop.count == Wrap(rx.lastEdgeCount + MIN_STOP))
  }

  /** A transmitter that is not claimed and has nothing waiting has no repeats left. */
  predicate RepeatsAgree(n: Node) {
    n.tx.indexNext == 0 && !n.rx.waiting ==> n.tx.repeat == 0
  }

  predicate Inv(w: World) {
    Ready(w.node.tx) && LevelAgrees(w) && FrameAgrees(w.node.rx) && TimersAgree(w.node.rx) && RepeatsAgree(w.node)
  }

  lemma InvBoot(active: bool)
    ensures Inv(BootWorld(active))
  {}

  lemma InvStep(w: World, e: Event)
    requires Inv(w) && Enabled(w, e)
    ensures Inv(Step(w, e))
  {
    match e
    case Capture(_, _, _) =>
      if InBit(w.node.rx.status) { InvBit(w, e); }
      else if w.active { InvRecover(w, e); }
      else { InvCapture(w, e); }
    case StopMatch(_, _) => if w.active { InvStopActive(w, e); } else { InvStopIdle(w, e); }
    case Send(_, _) => InvSend(w, e);
    case TxMatch(_) => InvTxMatch(w, e);
    case _ => InvOther(w, e);
  }

  lemma InvBit(w: World, e: Event)
    requires Inv(w) && e.Capture? && InBit(w.node.rx.status)
    ensures Inv(Step(w, e))
  {
    hide Wrap, ErrorData, CorrectedDifference, TxSpec.Valid, CheckStartTiming, InsideBit;
    var rx, rx' := CaptureIsr(w.node.rx, e.count), Step(w, e).node.rx;
    if rx.status == START_BIT_START || rx.status == DATA_BIT_START {
      BeginBit(rx, if rx.status == START_BIT_START then START_BIT_INSIDE else DATA_BIT_INSIDE, e.tick);
    } else {
      InsideBitCases(rx, e.tick);
    }
  }

  lemma InvRecover(w: World, e: Event)
    requires Inv(w) && e.Capture? && !InBit(w.node.rx.status) && w.active
    ensures Inv(Step(w, e))
  {
    hide Wrap, ErrorData, CorrectedDifference, ManageTx;
  }

  lemma InvCapture(w: World, e: Event)
    requires Inv(w) && e.Capture? && !InBit(w.node.rx.status) && !w.active
    ensures Inv(Step(w, e))
  {}

  lemma InvStopActive(w: World, e: Event)
    requires Inv(w) && e.StopMatch? && Enabled(w, e) && w.active
    ensures Inv(Step(w, e))
  {}

  lemma InvStopIdle(w: World, e: Event)
    requires Inv(w) && e.StopMatch? && Enabled(w, e) && !w.active
    ensures Inv(Step(w, e))
  {
    hide Wrap, ReceivedTwice, ProcessPendingFrame, ManageTx;
  }

  lemma InvSend(w: World, e: Event)
    requires Inv(w) && e.Send? && Enabled(w, e)
    ensures Inv(Step(w, e))
  {
    hide Wrap, Load;
  }

  lemma InvTxMatch(w: World, e: Event)
    requires Inv(w) && e.TxMatch? && Enabled(w, e)
    ensures Inv(Step(w, e))
  {
    MatchKeeps(w.node.tx);
    hide Wrap, TimerMatch;
  }

  lemma InvOther(w: World, e: Event)
    requires Inv(w) && (e.PeriodMatch? || e.QueryMatch?) && Enabled(w, e)
    ensures Inv(Step(w, e))
  {
    hide Wrap;
  }

  /** Every world of a run that starts well is well. */
  lemma {:induction false} InvAlong(ws: seq<World>, es: seq<Event>, i: nat, j: nat)
    requires Run(ws, es) && i <= j < |ws| && Inv(ws[i])
    ensures Inv(ws[j])
  {
    hide Step, Inv;
    if i < j {
      InvAlong(ws, es, i, j - 1);
      assert FollowsAt(ws, es, j - 1);
      InvStep(ws[j - 1], es[j - 1]);
    }
  }

  lemma InvFromBoot(ws: seq<World>, es: seq<Event>, j: nat)
    requires FromBoot(ws, es) && j < |ws|
    ensures Inv(ws[j])
  {
    var active :| ws[0] == BootWorld(active);
    InvBoot(active);
    InvAlong(ws, es, 0, j);
  }

  // ---- the last edge ----

  lemma EdgeRecorded(w: World, e: Event)
    requires Inv(w) && e.Capture?
    ensures Step(w, e).node.rx.lastEdgeCount == e.count && Step(w, e).active == !w.active
  {
    if InBit(w.node.rx.status) { EdgeRecordedInBit(w, e); }
    hide CorrectedDifference, ErrorData, Wrap, ShiftIn, CheckStartTiming, InsideBit, ManageTx;
    hide FrameAgrees, TimersAgree, RepeatsAgree;
  }

  lemma EdgeRecordedInBit(w: World, e: Event)
    requires Inv(w) && e.Capture? && InBit(w.node.rx.status)
    ensures Step(w, e).node.rx.lastEdgeCount == e.count
  {
    hide CorrectedDifference, ErrorData, Wrap, ShiftIn, CheckStartTiming, InsideBit, StartReception, Recover;
    hide FrameAgrees, TimersAgree, RepeatsAgree;
    var rx := CaptureIsr(w.node.rx, e.count);
    if rx.status == START_BIT_START || rx.status == DATA_BIT_START {
      BeginBit(rx, if rx.status == START_BIT_START then START_BIT_INSIDE else DATA_BIT_INSIDE, e.tick);
    } else {
      InsideBitCases(rx, e.tick);
    }
  }

  lemma EdgeKept(w: World, e: Event)
    requires Inv(w) && Enabled(w, e) && !e.Capture?
    ensures Step(w, e).node.rx.lastEdgeCount == w.node.rx.lastEdgeCount && Step(w, e).active == w.active
    ensures Step(w, e).node.rx.stop.on ==> w.node.rx.stop.on
  {
    hide Wrap, Load, TimerMatch, ProcessPendingFrame, ReceivedTwice, ErrorData;
    hide FrameAgrees, TimersAgree, RepeatsAgree;
  }

  /** Event `c` captured the last edge before event `k`. */
  ghost predicate IsLastEdge(ws: seq<World>, es: seq<Event>, k: nat, c: nat)
    requires c < k <= |es| == |ws| - 1
  {
    && es[c].Capture? && ws[k].node.rx.lastEdgeCount == es[c].count
    && (forall m :: c < m < k ==> !es[m].Capture?)
    && (forall m :: c < m <= k ==> ws[m].active == ws[k].active)
  }

  /** Before the first edge no stop condition is awaited and no settling time runs. */
  predicate Quiet(rx: RxState) {
    !rx.stop.on && !rx.period.on && rx.status != INTER_FRAME_IDLE
  }

  lemma QuietStays(w: World, e: Event)
    requires Inv(w) && Enabled(w, e) && !e.Capture? && Quiet(w.node.rx)
    ensures Quiet(Step(w, e).node.rx)
  {
    hide Wrap, Load, TimerMatch, FrameAgrees, RepeatsAgree;
  }

  lemma BootQuiet()
    ensures Quiet(BootWorld(false).node.rx) && Quiet(BootWorld(true).node.rx)
  {}

  /** The event that captured the last edge before event `k`, or -1 if there was none. */
  lemma {:induction false} EdgeBefore(ws: seq<World>, es: seq<Event>, k: nat) returns (c: int)
    requires FromBoot(ws, es) && k < |ws|
    ensures -1 <= c < k
    ensures c == -1 ==> Quiet(ws[k].node.rx)
    ensures c >= 0 ==> IsLastEdge(ws, es, k, c)
  {
    hide Inv, Step, BootWorld, IsLastEdge, Quiet;
    if k == 0 {
      BootQuiet();
      c := -1;
    } else {
      InvFromBoot(ws, es, k - 1);
      assert FollowsAt(ws, es, k - 1);
      c := EdgeBefore(ws, es, k - 1);
      if es[k - 1].Capture? {
        EdgeRecorded(ws[k - 1], es[k - 1]);
        LastEdgeHere(ws, es, k);
        c := k - 1;
      } else {
        EdgeKept(ws[k - 1], es[k - 1]);
        if c >= 0 { LastEdgeStays(ws, es, k, c); } else { QuietStays(ws[k - 1], es[k - 1]); }
      }
    }
  }

  lemma LastEdgeHere(ws: seq<World>, es: seq<Event>, k: nat)
    requires 0 < k <= |es| == |ws| - 1 && es[k - 1].Capture? && ws[k].node.rx.lastEdgeCount == es[k - 1].count
    ensures IsLastEdge(ws, es, k, k - 1)
  {}

  lemma LastEdgeStays(ws: seq<World>, es: seq<Event>, k: nat, c: nat)
    requires c < k - 1 < |es| == |ws| - 1 && IsLastEdge(ws, es, k - 1, c) && !es[k - 1].Capture?
    requires ws[k].node.rx.lastEdgeCount == ws[k - 1].node.rx.lastEdgeCount && ws[k].active == ws[k - 1].active
    ensures IsLastEdge(ws, es, k, c)
  {}
}
