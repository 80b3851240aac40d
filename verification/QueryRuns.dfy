/** Two runs of a query from boot, in true time and without a missed interrupt: one that is not answered and times out,
    and one that yields neither an answer nor a timeout, because the line is held active. */
module QueryRuns {
  import opened Dali
  import opened TxSpec
  import opened RxSpec
  import opened Runs
  import opened Decoder
  import opened Loopback
  import opened Repeats
  import opened RepeatRuns
  import opened Queries

  // ---- a query that is not answered ----

  lemma NotYetAsked(w: World, e: Event, next: World)
    requires Inv(w) && Enabled(w, e) && !e.Send? && !StopPhaseEnds(w, e) && next == Step(w, e)
    requires !w.node.rx.query.on
    ensures !next.node.rx.query.on && next.node.tx.isQuery == w.node.tx.isQuery
  {
    QueryStep(w, e);
    hide Step, Inv;
  }

  lemma QueryStop0(w: World, e: Event)
    requires Snap(w, START_BIT_INSIDE, 493, 0, 0, false, 1) && Enabled(w, e) && e == StopMatch(2893, 2)
    ensures var rx := Step(w, e).node.rx;
            && rx.status == INTER_FRAME_IDLE && rx.period == Match(19993, true) && rx.query == w.node.rx.query
            && !rx.stop.on
  {
    StopUnclaimed(w, e);
    var rx := QueueFrame(w.node.rx.(stop := w.node.rx.stop.(on := false)));
    assert FrameStartCount(rx, Forward(5)) == 19993;
    assert ScheduleSettling(rx, Forward(5), 2893).period == Match(19993, true);
    hide Step, Inv, ReceivedTwice, FrameStartCount, Wrap, ScheduleSettling;
  }

  lemma InNoHurry(m: Match, m': Match, matched: bool, e: Event, t: nat, next: nat)
    requires t < next <= m'.count && e.now == t
    ensures next <= Reached(m', Since(m, m', matched, e, t))
  {}

  /** Nothing is missed at `k` if every channel that is armed stands for a later count. */
  lemma PunctualNext(ws: seq<World>, es: seq<Event>, ts: seq<int>, k: nat)
    requires 0 < k < |es| == |ts| == |ws| - 1 && 0 <= ts[k - 1] < ts[k] && es[k - 1].now == ts[k - 1]
    requires var rx := ws[k].node.rx;
             && (rx.stop.on ==> ts[k] <= rx.stop.count) && (rx.period.on ==> ts[k] <= rx.period.count)
             && (rx.query.on ==> ts[k] <= rx.query.count)
    ensures PunctualAt(ws, es, ts, k)
  {
    var rx, rx', e, t := ws[k - 1].node.rx, ws[k].node.rx, es[k - 1], ts[k - 1];
    if rx'.stop.on { InNoHurry(rx.stop, rx'.stop, e.StopMatch?, e, t, ts[k]); }
    if rx'.period.on { InNoHurry(rx.period, rx'.period, e.PeriodMatch?, e, t, ts[k]); }
    if rx'.query.on { InNoHurry(rx.query, rx'.query, e.QueryMatch?, e, t, ts[k]); }
    hide Reached, Since;
  }

  lemma StopCount(w: World)
    requires Inv(w) && w.node.rx.lastEdgeCount < 1000 && w.node.rx.status != LOW
    ensures w.node.rx.stop.on ==> w.node.rx.stop.count == w.node.rx.lastEdgeCount + MIN_STOP
    ensures !Listening(w.node.rx.status) ==> !w.node.rx.period.on
  {}

  /** The events and times of a query without data bits that is heard 100 us late and not answered. */
  const UNANSWERED := [Send(TxFrame(0, 0, 0, Query(1)), 0), Capture(100, 100, 0), TxMatch(393), Capture(493, 493, 0),
                       TxMatch(2819), StopMatch(2893, 2), QueryMatch(16219, 16)]
  const UNANSWERED_TIMES := [0, 100, 393, 493, 2819, 2893, 16219]

  /** The channels that are armed in a world of the run below stand for these counts. */
  ghost predicate Channels(w: World, stop: Word, timeouts: nat) {
    var rx := w.node.rx;
    && (rx.stop.on ==> rx.stop.count == stop) && (rx.period.on ==> rx.period.count == 19993)
    && (rx.query.on ==> rx.query.count == 16219) && Timeouts(rx.queue) == timeouts && Inv(w)
  }

  /** The query is on its way: its stop phase has not ended. */
  lemma OnItsWay(w: World, e: Event, next: World, stop: Word)
    requires Channels(w, stop, 0) && w.node.tx.isQuery && !w.node.rx.query.on && Follows(w, e, next)
    requires !e.Send? && !e.QueryMatch? && !StopPhaseEnds(w, e)
    requires next.node.rx.lastEdgeCount < 1000 && !Listening(next.node.rx.status) && next.node.rx.status != LOW
    ensures Channels(next, next.node.rx.lastEdgeCount + MIN_STOP, 0)
    ensures next.node.tx.isQuery && !next.node.rx.query.on
  {
    InvStep(w, e);
    NotYetAsked(w, e, next);
    TimeoutStep(w, e);
    StopCount(next);
    hide Inv, Step, Timeouts;
  }

  lemma QueryStarts(w: World, e: Event, next: World)
    requires w == BootWorld(false) && e == UNANSWERED[0] && next == Step(w, e)
    ensures Follows(w, e, next) && Channels(next, MIN_STOP, 0) && next.node.tx.isQuery && !next.node.rx.query.on
    ensures Snap(next, IDLE, 0, 1, 0, false, 1) && next.node.tx.timer.on
  {
    InvBoot(false);
    SnapSend(e, 0, Query(1));
    MarkSet(w, e);
    BootSilent();
    StopCount(next);
    QuietBoot(w, e);
    hide Step, Inv, BootWorld, Timeouts;
  }

  lemma BootSilent()
    ensures Timeouts(BootWorld(false).node.rx.queue) == 0 && !BootWorld(false).node.rx.query.on
    ensures Ready(BootWorld(false).node.tx) && Quiet(BootWorld(false).node.rx) && !BootWorld(false).node.rx.waiting
  {}

  lemma QuietBoot(w: World, e: Event)
    requires w == BootWorld(false) && e.Send? && Enabled(w, e)
    ensures !Step(w, e).node.rx.period.on
  {
    InvBoot(false);
    BootSilent();
    QuietStays(w, e);
    hide Step, Inv, BootWorld;
  }

  /** The stop phase ends, the reception ends, and nobody answers. */
  lemma NobodyAnswers(w4: World) returns (w5: World, w6: World, w7: World)
    requires Snap(w4, START_BIT_INSIDE, 493, 2, 0, false, 1) && w4.node.rx.stop.on && w4.node.tx.timer.on
    requires Channels(w4, 2893, 0) && w4.node.tx.isQuery
    ensures Follows(w4, UNANSWERED[4], w5) && Follows(w5, UNANSWERED[5], w6) && Follows(w6, UNANSWERED[6], w7)
    ensures Channels(w5, 2893, 0) && Channels(w6, 20000, 0) && w5.node.rx.stop.on && w6.node.rx.query.on
    ensures Timeouts(w7.node.rx.queue) == 1 && w7.node.rx.queue == w6.node.rx.queue + [TimeoutFrame(16)]
  {
    hide Step, LevelAgrees, FrameAgrees, TimersAgree, RepeatsAgree, Timeouts, Armed;
    var e4, e5, e6 := TxMatch(2819), StopMatch(2893, 2), QueryMatch(16219, 16);
    w5 := Step(w4, e4);
    SnapMatch(w4, e4, START_BIT_INSIDE, 493, 2, 0, false, 1);
    QueryArmed(w4, e4);
    TimeoutStep(w4, e4);
    StopCount(w5);
    w6 := Step(w5, e5);
    QueryStop0(w5, e5);
    InvStep(w5, e5);
    TimeoutStep(w5, e5);
    ArmedOn(w5);
    w7 := Step(w6, e6);
    TimeoutStep(w6, e6);
    TimeoutQueued(w6, e6);
  }

  lemma ArmedOn(w: World)
    requires Armed(w.node)
    ensures w.node.rx.query.on
  {}

  lemma UnansweredRun() returns (w1: World, w2: World, w3: World, w4: World)
    ensures var w0, es := BootWorld(false), UNANSWERED;
            Follows(w0, es[0], w1) && Follows(w1, es[1], w2) && Follows(w2, es[2], w3) && Follows(w3, es[3], w4)
    ensures Channels(w1, MIN_STOP, 0) && Channels(w2, 2500, 0) && Channels(w3, 2500, 0) && Channels(w4, 2893, 0)
    ensures Snap(w4, START_BIT_INSIDE, 493, 2, 0, false, 1) && w4.node.rx.stop.on && w4.node.tx.timer.on
    ensures w4.node.tx.isQuery && !w4.node.rx.query.on
  {
    hide Step, LevelAgrees, FrameAgrees, TimersAgree, RepeatsAgree, BootWorld, Timeouts;
    var w0, es := BootWorld(false), UNANSWERED;
    BootSilent();
    w1 := Step(w0, es[0]);
    QueryStarts(w0, es[0], w1);
    SnapStart(w1, es[1], IDLE, 0, 1, 0, false, 1);
    w2 := Step(w1, es[1]);
    OnItsWay(w1, es[1], w2, MIN_STOP);
    SnapMatch(w2, es[2], START_BIT_START, 100, 1, 0, false, 1);
    w3 := Step(w2, es[2]);
    OnItsWay(w2, es[2], w3, 2500);
    SnapMid(w3, es[3], 100, 2, 0, false, 1);
    w4 := Step(w3, es[3]);
    OnItsWay(w3, es[3], w4, 2500);
  }

  /** Between two neighbouring events. */
  lemma NotMissed(ws: seq<World>, es: seq<Event>, ts: seq<int>, k: nat, stop: Word)
    requires 0 < k < |es| == |ts| == |ws| - 1 && 0 <= ts[k - 1] < ts[k] <= 16219 && es[k - 1].now == ts[k - 1]
    requires Channels(ws[k], stop, 0) && ts[k] <= stop
    ensures PunctualAt(ws, es, ts, k)
  {
    PunctualNext(ws, es, ts, k);
    hide PunctualAt;
  }

  /** From boot, in true time and without a missed interrupt: a query is sent and not answered, and there is one
      timeout, 13.4 ms after its stop phase. */
  lemma QueryTimesOut() returns (ws: seq<World>)
    ensures Punctual(ws, UNANSWERED, UNANSWERED_TIMES) && OneQuery(ws, UNANSWERED, 0, 7) && ws[0] == BootWorld(false)
    ensures Timeouts(ws[7].node.rx.queue) == 1
    ensures ws[7].node.rx.queue == ws[6].node.rx.queue + [TimeoutFrame(16)]
  {
    var es, ts, w0 := UNANSWERED, UNANSWERED_TIMES, BootWorld(false);
    InvBoot(false);
    BootSilent();
    hide Inv, BootWorld, Timeouts, PunctualAt, Follows;
    var w1, w2, w3, w4 := UnansweredRun();
    var w5, w6, w7 := NobodyAnswers(w4);
    ws := [w0, w1, w2, w3, w4, w5, w6, w7];
    NotMissed(ws, es, ts, 1, MIN_STOP);
    NotMissed(ws, es, ts, 2, 2500);
    NotMissed(ws, es, ts, 3, 2500);
    NotMissed(ws, es, ts, 4, 2893);
    NotMissed(ws, es, ts, 5, 2893);
    NotMissed(ws, es, ts, 6, 20000);
    assert w5.node.rx.stop.count == 2893 && w6.node.rx.query.count == 16219;
    hide Channels, Snap;
    forall k | 0 <= k < 7 ensures FollowsAt(ws, es, k) && OnTimeAt(ws, es, ts, k) {}
  }

  // ---- a query that yields neither ----

  /** The same query, but another device pulls the line active behind it and holds it. */
  const HELD := [Send(TxFrame(0, 0, 0, Query(1)), 0), Capture(100, 100, 0), TxMatch(393), Capture(493, 493, 0),
                 Capture(2000, 2000, 2), TxMatch(2819), StopMatch(4400, 4), QueryMatch(16219, 16)]
  const HELD_TIMES := [0, 100, 393, 493, 2000, 2819, 4400, 16219]
  /** The count of the stop-bit channel before each event. */
  const HELD_STOPS: seq<Word> := [0, MIN_STOP, 2500, 2500, 2893, 4400, 4400, 502000]

  /** The late edge is a timing error, and the stop phase of the query goes on. */
  lemma PulledActive(w: World, e: Event, next: World)
    requires Snap(w, START_BIT_INSIDE, 493, 2, 0, false, 1) && Channels(w, 2893, 0) && w.node.tx.timer.on
    requires w.node.tx.isQuery && !w.node.rx.query.on && e == Capture(2000, 2000, 2) && Follows(w, e, next)
    ensures next.node.rx.status == ERROR_IN_FRAME && next.active && next.node.tx == w.node.tx
    ensures next.node.rx.lastEdgeCount == 2000 && next.node.rx.stop == Match(4400, true) && !next.node.rx.query.on
    ensures Channels(next, 4400, 0)
  {
    hide Step, FrameAgrees, RepeatsAgree, Timeouts;
    InvStep(w, e);
    EdgeInside(w, e);
    OwnEdge(w, e);
    StopArmed(w, e);
    NotYetAsked(w, e, next);
    TimeoutStep(w, e);
    TooLong();
  }

  lemma TooLong()
    ensures !ValidHalfBit(Corrected(false, Wrap(2000 - 493))) && !ValidFullBit(Corrected(false, Wrap(2000 - 493)))
  {}

  lemma StopPhaseOver(w: World, e: Event, next: World)
    requires Channels(w, 4400, 0) && w.node.rx.status == ERROR_IN_FRAME && w.active && w.node.rx.lastEdgeCount == 2000
    requires w.node.tx.isQuery && w.node.tx.indexNext == w.node.tx.indexMax + 1 && w.node.tx.timer.on
    requires e == TxMatch(2819) && Follows(w, e, next)
    ensures StopPhaseEnds(w, e) && Channels(next, 4400, 0) && next.active
    ensures next.node.rx == w.node.rx.(query := Match(16219, true)) && !next.node.tx.isQuery
  {
    hide Step, LevelAgrees, FrameAgrees, TimersAgree, RepeatsAgree, Timeouts;
    InvStep(w, e);
    EndOfCopy(w, e);
    TimeoutStep(w, e);
  }

  lemma LineLow(w: World, e: Event, next: World)
    requires Channels(w, 4400, 0) && w.node.rx.status == ERROR_IN_FRAME && w.active && w.node.rx.lastEdgeCount == 2000
    requires w.node.rx.query == Match(16219, true) && e == StopMatch(4400, 4) && Follows(w, e, next)
    ensures next.node.rx.status == LOW && Channels(next, 502000, 0) && next.node.rx.query == Match(16219, true)
  {
    hide LevelAgrees, FrameAgrees, TimersAgree, RepeatsAgree, Timeouts;
    InvStep(w, e);
    TimeoutStep(w, e);
  }

  /** What is known of the worlds of this run. */
  ghost predicate Held(ws: seq<World>) {
    && |ws| == 9 && ws[0] == BootWorld(false)
    && (forall k :: 0 <= k < 8 ==> Follows(ws[k], HELD[k], ws[k + 1]))
    && (forall k :: 0 < k < 8 ==> Channels(ws[k], HELD_STOPS[k], 0))
    && StopPhaseEnds(ws[5], HELD[5]) && ws[6].node.rx.stop.count == 4400 && ws[7].node.rx.query.count == 16219
    && ws[7].node.rx.status == LOW && Timeouts(ws[8].node.rx.queue) == 0
  }

  lemma HeldRun() returns (ws: seq<World>)
    ensures Held(ws)
  {
    hide Step, LevelAgrees, FrameAgrees, TimersAgree, RepeatsAgree, BootWorld, Timeouts;
    var w1, w2, w3, w4 := UnansweredRun();
    var w5 := Step(w4, HELD[4]);
    PulledActive(w4, HELD[4], w5);
    var w6 := Step(w5, HELD[5]);
    StopPhaseOver(w5, HELD[5], w6);
    var w7 := Step(w6, HELD[6]);
    LineLow(w6, HELD[6], w7);
    var w8 := Step(w7, HELD[7]);
    InvStep(w7, HELD[7]);
    TimeoutStep(w7, HELD[7]);
    ws := [BootWorld(false), w1, w2, w3, w4, w5, w6, w7, w8];
    hide Follows, Channels;
  }

  lemma HeldAt(ws: seq<World>, k: nat)
    requires Held(ws) && k < 8
    ensures FollowsAt(ws, HELD, k) && OnTimeAt(ws, HELD, HELD_TIMES, k)
  {
    hide BootWorld, Timeouts, Follows, StopPhaseEnds, Channels;
  }

  lemma HeldTimed(ws: seq<World>)
    requires Held(ws)
    ensures Timed(ws, HELD, HELD_TIMES)
  {
    forall k | 0 <= k < 8 ensures FollowsAt(ws, HELD, k) && OnTimeAt(ws, HELD, HELD_TIMES, k) {
      HeldAt(ws, k);
    }
    hide Held, FollowsAt, OnTimeAt;
  }

  lemma HeldPunctual(ws: seq<World>)
    requires Held(ws)
    ensures Punctual(ws, HELD, HELD_TIMES)
  {
    HeldTimed(ws);
    forall k | 0 < k < 8 ensures PunctualAt(ws, HELD, HELD_TIMES, k) {
      hide BootWorld, Timeouts, Follows, StopPhaseEnds, Channels, PunctualAt;
      NotMissed(ws, HELD, HELD_TIMES, k, HELD_STOPS[k]);
    }
    hide Held, Timed, PunctualAt;
  }

  /** From boot, in true time and without a missed interrupt: a query that yields neither an answer nor a timeout. The
      line is held active from before the end of its stop phase until its match, which is dropped. */
  lemma QueryCanBeDropped() returns (ws: seq<World>)
    ensures Punctual(ws, HELD, HELD_TIMES) && OneQuery(ws, HELD, 0, 8) && ws[0] == BootWorld(false)
    ensures Sent(ws, HELD, 0, 8, 5) && Over(ws, HELD, HELD_TIMES, 0, 8, 5, Dropped(7))
  {
    ws := HeldRun();
    HeldPunctual(ws);
    HeldQuery(ws);
    var p := QuerySent(ws, HELD, 0, 8);
    hide Inv, BootWorld, Timeouts, Punctual, StopPhaseEnds, Channels, Armed, Held, OneQuery;
    NotUnsent(ws, p);
    HeldOver(ws);
    hide Over, EndsOnlyAt;
  }

  lemma HeldQuery(ws: seq<World>)
    requires Held(ws)
    ensures OneQuery(ws, HELD, 0, 8)
  {
    InvBoot(false);
    BootSilent();
    HeldTimed(ws);
    hide Inv, BootWorld, Timeouts, StopPhaseEnds, Channels, FollowsAt, OnTimeAt;
  }

  lemma HeldOver(ws: seq<World>)
    requires Held(ws)
    ensures Over(ws, HELD, HELD_TIMES, 0, 8, 5, Dropped(7)) && ws[0] == BootWorld(false)
  {
    BootSilent();
    hide BootWorld, Timeouts, Follows, StopPhaseEnds, Channels;
  }

  lemma NotUnsent(ws: seq<World>, p: int)
    requires Held(ws) && EndsOnlyAt(ws, HELD, 1, 8, p)
    ensures p == 5
  {
    hide Follows, Channels, StopPhaseEnds;
  }
}
