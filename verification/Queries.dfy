/** What becomes of a query: an answer or a timeout, never both. */
module Queries {
  import opened Dali
  import opened TxSpec
  import opened RxSpec
  import opened Runs
  import opened Excursions
  import opened Repeats

  /** The query channel is armed, and no query is being sent that would arm it again. */
  predicate Armed(n: Node) {
    n.rx.query.on && !n.tx.isQuery
  }

  /** The stop phase of a query ends. */
  predicate StopPhaseEnds(w: World, e: Event) {
    e.TxMatch? && QueryEnds(w.node.tx)
  }

  /** The end of the stop phase of a query arms the query channel for 13.4 ms later. */
  lemma QueryArmed(w: World, e: Event)
    requires Ready(w.node.tx) && Enabled(w, e) && StopPhaseEnds(w, e)
    ensures Armed(Step(w, e).node)
    ensures Step(w, e).node.rx == w.node.rx.(query := Match(Wrap(e.now + 13_400), true))
  {
    hide Wrap;
  }

  function Timeouts(q: seq<RxFrame>): nat {
    if q == [] then 0 else Timeouts(q[..|q| - 1]) + if q[|q| - 1].code == TIMEOUT then 1 else 0
  }

  lemma TimeoutsAppend(q: seq<RxFrame>, f: RxFrame)
    ensures Timeouts(q + [f]) == Timeouts(q) + if f.code == TIMEOUT then 1 else 0
  {
    assert (q + [f])[..|q|] == q;
  }

  /** A start edge is heard while the channel is armed. */
  predicate Answers(w: World, e: Event) {
    e.Capture? && Listening(w.node.rx.status) && w.node.rx.query.on
  }

  ghost predicate QueryStepped(w: World, e: Event, n': Node) {
    && (w.node.rx.query.on && !StopPhaseEnds(w, e) ==>
          if Answers(w, e) || e.QueryMatch? then !n'.rx.query.on else n'.rx.query == w.node.rx.query)
    && (!w.node.rx.query.on && !StopPhaseEnds(w, e) ==> !n'.rx.query.on)
    && n'.tx.isQuery == (w.node.tx.isQuery && !StopPhaseEnds(w, e))
    && (Listening(w.node.rx.status) && !Listening(n'.rx.status) ==> e.Capture?)
  }

  /** What one step does to a query: the end of the stop phase clears the mark and arms the channel, and an answer or
      the match turns the channel off; nothing else touches the two. */
  lemma QueryStep(w: World, e: Event)
    requires Inv(w) && Enabled(w, e) && !e.Send?
    ensures QueryStepped(w, e, Step(w, e).node)
  {
    match e
    case Capture(_, _, _) =>
      if InBit(w.node.rx.status) { QueryBit(w, e); } else { QueryCapture(w, e); }
    case StopMatch(_, _) => QueryStop(w, e);
    case _ => QueryOther(w, e);
  }

  lemma QueryBit(w: World, e: Event)
    requires Inv(w) && e.Capture? && InBit(w.node.rx.status)
    ensures QueryStepped(w, e, Step(w, e).node)
  {
    hide Wrap, ErrorData, CorrectedDifference, CheckStartTiming, InsideBit, ShiftIn, StartReception, Recover;
    hide FrameAgrees, TimersAgree, LevelAgrees, RepeatsAgree;
    var rx := CaptureIsr(w.node.rx, e.count);
    if rx.status == START_BIT_START || rx.status == DATA_BIT_START {
      BeginBit(rx, if rx.status == START_BIT_START then START_BIT_INSIDE else DATA_BIT_INSIDE, e.tick);
    } else {
      InsideBitCases(rx, e.tick);
    }
  }

  lemma QueryCapture(w: World, e: Event)
    requires Inv(w) && e.Capture? && !InBit(w.node.rx.status)
    ensures QueryStepped(w, e, Step(w, e).node)
  {
    hide Wrap, ErrorData, CorrectedDifference, ManageTx, FrameAgrees, TimersAgree, RepeatsAgree;
  }

  lemma QueryStop(w: World, e: Event)
    requires Inv(w) && Enabled(w, e) && e.StopMatch?
    ensures QueryStepped(w, e, Step(w, e).node)
  {
    hide Wrap, ErrorData, ReceivedTwice, ManageTx, ProcessPendingFrame, FrameAgrees, TimersAgree, RepeatsAgree;
  }

  lemma QueryOther(w: World, e: Event)
    requires Inv(w) && Enabled(w, e) && (e.PeriodMatch? || e.QueryMatch? || e.TxMatch?)
    ensures QueryStepped(w, e, Step(w, e).node)
  {
    hide Wrap, FrameAgrees, LevelAgrees, RepeatsAgree;
  }

  /** A timeout is queued by the query match and by nothing else. */
  lemma TimeoutStep(w: World, e: Event)
    requires Inv(w) && Enabled(w, e)
    ensures Timeouts(Step(w, e).node.rx.queue) ==
            Timeouts(w.node.rx.queue) + if e.QueryMatch? && Listening(w.node.rx.status) then 1 else 0
  {
    var rx, rx' := w.node.rx, Step(w, e).node.rx;
    StepReports(w, e);
    if e.QueryMatch? && Listening(rx.status) {
      TimeoutsAppend(rx.queue, Newest(rx'));
    } else if rx'.queue != rx.queue {
      OnlyQueryTimes(w, e);
      TimeoutsAppend(rx.queue, Newest(rx'));
    }
    hide Timeouts, Wrap;
  }

  lemma OnlyQueryTimes(w: World, e: Event)
    requires Inv(w) && Enabled(w, e) && !(e.QueryMatch? && Listening(w.node.rx.status))
    requires Reports(w.node.rx, Step(w, e).node.rx)
    ensures Step(w, e).node.rx.queue != w.node.rx.queue ==> Newest(Step(w, e).node.rx).code != TIMEOUT
  {
    hide Wrap, ErrorData, Load, TimerMatch, ManageTx, CorrectedDifference;
  }

  /** What a timeout reports: no data, no marks, and the time of the match. */
  function TimeoutFrame(tick: Word): RxFrame {
    RxFrame(false, false, TIMEOUT, 0, 0, tick)
  }

  lemma TimeoutQueued(w: World, e: Event)
    requires Inv(w) && Enabled(w, e) && e.QueryMatch? && Listening(w.node.rx.status)
    ensures Step(w, e).node.rx.queue == w.node.rx.queue + [TimeoutFrame(e.tick)]
  {
    hide Wrap, TimersAgree, LevelAgrees, RepeatsAgree;
  }

  datatype Outcome = Open | Answered(at: nat) | TimedOut(at: nat) | Dropped(at: nat)

  /** What has become of a query armed at `i`, seen at `k`. */
  ghost predicate Became(ws: seq<World>, es: seq<Event>, i: nat, k: nat, o: Outcome)
    requires i <= k <= |es| == |ws| - 1
  {
    var q, q' := ws[i].node.rx.queue, ws[k].node.rx.queue;
    match o
    case Open => ws[k].node.rx.query == ws[i].node.rx.query && Timeouts(q') == Timeouts(q)
    case Answered(m) =>
      && i <= m < k && Answers(ws[m], es[m])
      && ws[m].node.rx.query == ws[i].node.rx.query && !ws[k].node.rx.query.on
      && Timeouts(q') == Timeouts(q)
    case TimedOut(m) =>
      && i <= m < k && es[m].QueryMatch? && Listening(ws[m].node.rx.status)
      && ws[m].node.rx.query == ws[i].node.rx.query && !ws[k].node.rx.query.on
      && Timeouts(q') == Timeouts(q) + 1
      && ws[m + 1].node.rx.queue == ws[m].node.rx.queue + [TimeoutFrame(es[m].tick)]
    case Dropped(m) =>
      && i <= m < k && es[m].QueryMatch? && !Listening(ws[m].node.rx.status)
      && ws[m].node.rx.query == ws[i].node.rx.query && !ws[k].node.rx.query.on
      && Timeouts(q') == Timeouts(q)
  }

  /** Query outcome. A query armed at `i`, with no other frame sent since, is either open, or was answered by a
      start edge and yields no timeout, or has yielded exactly one timeout, at its match and outside of any
      reception. Only if it was armed inside a reception can the match find that reception still going on, and
      be dropped (`DroppedExactly` has the exact condition). */
  lemma {:induction false} QueryOutcome(ws: seq<World>, es: seq<Event>, i: nat, k: nat) returns (o: Outcome)
    requires Run(ws, es) && i <= k <= |es| && Inv(ws[i]) && Armed(ws[i].node) && NoSend(es, i, k)
    ensures Inv(ws[k]) && !ws[k].node.tx.isQuery
    ensures Became(ws, es, i, k, o)
    ensures Listening(ws[i].node.rx.status) ==> !o.Dropped? && (o.Open? ==> Listening(ws[k].node.rx.status))
  {
    hide Inv, Step, Timeouts, Became;
    if i == k {
      o := Open;
      StillOpen(ws, es, i);
    } else {
      o := QueryOutcome(ws, es, i, k - 1);
      assert FollowsAt(ws, es, k - 1);
      InvStep(ws[k - 1], es[k - 1]);
      QueryStep(ws[k - 1], es[k - 1]);
      TimeoutStep(ws[k - 1], es[k - 1]);
      if es[k - 1].QueryMatch? && Listening(ws[k - 1].node.rx.status) { TimeoutQueued(ws[k - 1], es[k - 1]); }
      o := OutcomeStep(ws, es, i, k - 1, o);
    }
  }

  lemma StillOpen(ws: seq<World>, es: seq<Event>, i: nat)
    requires i <= |es| == |ws| - 1
    ensures Became(ws, es, i, i, Open)
  {}

  /** One more event of a run. */
  lemma OutcomeStep(ws: seq<World>, es: seq<Event>, i: nat, k: nat, o: Outcome) returns (o': Outcome)
    requires i <= k < |es| == |ws| - 1 && Became(ws, es, i, k, o) && ws[i].node.rx.query.on
    requires !ws[k].node.tx.isQuery && QueryStepped(ws[k], es[k], ws[k + 1].node)
    requires Timeouts(ws[k + 1].node.rx.queue) == Timeouts(ws[k].node.rx.queue) +
               if es[k].QueryMatch? && Listening(ws[k].node.rx.status) then 1 else 0
    requires es[k].QueryMatch? && Listening(ws[k].node.rx.status) ==>
               ws[k + 1].node.rx.queue == ws[k].node.rx.queue + [TimeoutFrame(es[k].tick)]
    requires Enabled(ws[k], es[k])
    ensures Became(ws, es, i, k + 1, o') && !ws[k + 1].node.tx.isQuery
    ensures !o.Dropped? && (o.Open? ==> Listening(ws[k].node.rx.status)) ==>
              !o'.Dropped? && (o'.Open? ==> Listening(ws[k + 1].node.rx.status))
  {
    hide Timeouts;
    var w, e := ws[k], es[k];
    o' := o;
    if o.Open? {
      if Answers(w, e) {
        o' := Answered(k);
      } else if e.QueryMatch? {
        o' := if Listening(w.node.rx.status) then TimedOut(k) else Dropped(k);
      }
    }
  }

  // ---- from the frame sent to the outcome ----

  /** No stop phase of a query ends between `i` and `k`, except at `p`. */
  ghost predicate EndsOnlyAt(ws: seq<World>, es: seq<Event>, i: nat, k: nat, p: int)
    requires i <= k <= |es| == |ws| - 1
  {
    forall m :: i <= m < k && StopPhaseEnds(ws[m], es[m]) ==> m == p
  }

  /** A frame sent adds its query mark, and takes no mark away: that of a query that never ended its stop phase
      stays. */
  lemma MarkSent(w: World, e: Event)
    requires Inv(w) && Enabled(w, e) && e.Send? && e.frame.kind != NoFrame
    ensures var n, n' := w.node, Step(w, e).node;
            && n'.tx.isQuery == (n.tx.isQuery || e.frame.kind.Query?)
            && n'.rx.query == n.rx.query && n'.rx.queue == n.rx.queue
  {
    hide Wrap, FrameStartCount, Overwrite;
  }

  lemma MarkSet(w: World, e: Event)
    requires Inv(w) && Enabled(w, e) && e.Send? && e.frame.kind.Query?
    ensures var n' := Step(w, e).node;
            n'.tx.isQuery && n'.rx.query == w.node.rx.query && n'.rx.queue == w.node.rx.queue
  {
    hide Wrap, FrameStartCount, Overwrite;
  }

  /** Event `i` sends a query, while nothing waits and no older query is open, and no other frame is sent before
      `k`. */
  ghost predicate OneQuery(ws: seq<World>, es: seq<Event>, i: nat, k: nat) {
    OneFrame(ws, es, i, k) && es[i].frame.kind.Query? && !ws[i].node.rx.query.on
  }

  /** No stop phase of the query has ended yet. */
  ghost predicate Unsent(ws: seq<World>, es: seq<Event>, i: nat, k: nat)
    requires i < k <= |es| == |ws| - 1
  {
    && ws[k].node.tx.isQuery && !ws[k].node.rx.query.on
    && EndsOnlyAt(ws, es, i + 1, k, -1) && Timeouts(ws[k].node.rx.queue) == Timeouts(ws[i].node.rx.queue)
  }

  /** The stop phase of the query has ended at event `p`, and never again: that event armed the channel, and the
      transmitter has forgotten about the query. */
  ghost predicate Sent(ws: seq<World>, es: seq<Event>, i: nat, k: nat, p: nat)
    requires i < k <= |es| == |ws| - 1
  {
    && i < p < k && StopPhaseEnds(ws[p], es[p]) && EndsOnlyAt(ws, es, i + 1, k, p)
    && Inv(ws[p + 1]) && Armed(ws[p + 1].node) && !ws[k].node.tx.isQuery
    && ws[p + 1].node.rx.query == Match(Wrap(es[p].now + MAX_BACKWARD_SETTLING), true)
    && Timeouts(ws[p + 1].node.rx.queue) == Timeouts(ws[i].node.rx.queue)
  }

  /** A query is either still to be sent, or its stop phase has ended exactly once; -1 stands for the former. */
  lemma {:induction false} QuerySent(ws: seq<World>, es: seq<Event>, i: nat, k: nat) returns (p: int)
    requires OneQuery(ws, es, i, k)
    ensures Inv(ws[k])
    ensures if p == -1 then Unsent(ws, es, i, k) else p >= 0 && Sent(ws, es, i, k, p)
  {
    hide Inv, Step, Timeouts, Armed;
    InvAlong(ws, es, i, k - 1);
    InvAlong(ws, es, i, k);
    assert FollowsAt(ws, es, k - 1);
    if k == i + 1 {
      MarkSet(ws[i], es[i]);
      p := -1;
    } else {
      p := QuerySent(ws, es, i, k - 1);
      QueryStep(ws[k - 1], es[k - 1]);
      if p == -1 {
        TimeoutStep(ws[k - 1], es[k - 1]);
        p := FirstEnd(ws, es, i, k - 1);
      }
    }
  }

  lemma FirstEnd(ws: seq<World>, es: seq<Event>, i: nat, k: nat) returns (p: int)
    requires i < k < |es| == |ws| - 1 && Unsent(ws, es, i, k) && Inv(ws[k]) && Inv(ws[k + 1])
    requires Enabled(ws[k], es[k]) && ws[k + 1] == Step(ws[k], es[k])
    requires ws[k + 1].node.tx.isQuery == !StopPhaseEnds(ws[k], es[k])
    requires !StopPhaseEnds(ws[k], es[k]) ==> !ws[k + 1].node.rx.query.on
    requires Timeouts(ws[k + 1].node.rx.queue) == Timeouts(ws[k].node.rx.queue) +
               if es[k].QueryMatch? && Listening(ws[k].node.rx.status) then 1 else 0
    ensures if p == -1 then Unsent(ws, es, i, k + 1) else p >= 0 && Sent(ws, es, i, k + 1, p)
  {
    hide Timeouts, Step, LevelAgrees, FrameAgrees, TimersAgree, RepeatsAgree;
    p := -1;
    if StopPhaseEnds(ws[k], es[k]) {
      QueryArmed(ws[k], es[k]);
      p := k;
    }
  }

  /** At no moment from `i` to `m` does the receiver listen: one reception goes on all the time. */
  ghost predicate Busy(ws: seq<World>, i: nat, m: nat)
    requires m < |ws|
  {
    forall q :: i <= q <= m ==> !Listening(ws[q].node.rx.status)
  }

  /** The exact condition for a query to yield neither an answer nor a timeout: a reception goes on from the end of
      its stop phase until its match. */
  lemma DroppedExactly(ws: seq<World>, es: seq<Event>, i: nat, k: nat, o: Outcome)
    requires Run(ws, es) && i <= k <= |es| && Inv(ws[i]) && Armed(ws[i].node) && NoSend(es, i, k)
    requires Became(ws, es, i, k, o) && !o.Open?
    ensures o.at < k && (o.Dropped? <==> Busy(ws, i, o.at))
  {
    if o.Dropped? {
      forall q | i <= q <= o.at ensures !Listening(ws[q].node.rx.status) {
        NotHeard(ws, es, i, q, o.at);
      }
    } else {
      assert i <= o.at && Listening(ws[o.at].node.rx.status);
    }
    hide Inv, Step, Timeouts;
  }

  /** A query that is open, and dropped at `m`, has been open at no moment outside a reception. */
  lemma NotHeard(ws: seq<World>, es: seq<Event>, i: nat, q: nat, m: nat)
    requires Run(ws, es) && i <= q <= m < |es| && Inv(ws[i]) && Armed(ws[i].node) && NoSend(es, i, m)
    requires ws[m].node.rx.query.on && !Listening(ws[m].node.rx.status)
    ensures !Listening(ws[q].node.rx.status)
  {
    hide Inv, Step, Timeouts;
    OpenBefore(ws, es, i, q, m);
    var before := QueryOutcome(ws, es, i, q);
    var after := QueryOutcome(ws, es, q, m);
  }

  /** What has become of a query by moment `k`: it is still to be sent; or its stop phase has ended exactly once, at
      `p`, and it is open, answered or timed out as `Became` says, counted from the frame that was sent. It is dropped
      exactly if a reception goes on from the end of the stop phase until the match. */
  lemma QueryRun(ws: seq<World>, es: seq<Event>, i: nat, k: nat) returns (p: int, o: Outcome)
    requires OneQuery(ws, es, i, k)
    ensures if p == -1 then Unsent(ws, es, i, k)
            else
              && p >= 0 && Sent(ws, es, i, k, p) && Became(ws, es, p + 1, k, o)
              && Timeouts(ws[k].node.rx.queue) - Timeouts(ws[i].node.rx.queue) == (if o.TimedOut? then 1 else 0)
              && (!o.Open? ==> o.at < k && (o.Dropped? <==> Busy(ws, p + 1, o.at)))
  {
    o := Open;
    p := QuerySent(ws, es, i, k);
    if p != -1 {
      o := QueryOutcome(ws, es, p + 1, k);
      hide Inv, Step, Timeouts, Busy;
      if !o.Open? { DroppedExactly(ws, es, p + 1, k, o); }
    }
  }

  // ---- in true time ----

  lemma LaterBy(a: int, b: int, d: nat)
    requires a <= b && d < WORD && Wrap(Wrap(a) + d) == Wrap(b)
    ensures b - a >= d
    ensures b - a < WORD ==> b - a == d
  {}

  lemma ReachedFrom(a: int, t: int, d: nat)
    requires a <= t <= a + d < a + WORD
    ensures Reached(Match(Wrap(Wrap(a) + d), true), t) == a + d
  {}

  /** A channel that is on now has been on, with the same count, ever since it was armed. */
  lemma {:induction false} OpenBefore(ws: seq<World>, es: seq<Event>, i: nat, j: nat, k: nat)
    requires Run(ws, es) && i <= j <= k <= |es| && Inv(ws[i]) && Armed(ws[i].node) && NoSend(es, i, k)
    requires ws[k].node.rx.query.on
    ensures ws[j].node.rx.query == ws[i].node.rx.query && !ws[j].node.tx.isQuery
    ensures forall m :: j <= m < k ==> !es[m].QueryMatch?
  {
    hide Inv, Step, Timeouts;
    if j < k {
      var o := QueryOutcome(ws, es, i, k - 1);
      assert FollowsAt(ws, es, k - 1);
      QueryStep(ws[k - 1], es[k - 1]);
      OpenBefore(ws, es, i, j, k - 1);
    } else {
      var o := QueryOutcome(ws, es, i, k);
    }
  }

  /** If no match interrupt is missed, no event comes while the query is open and more than 13.4 ms have passed since
      the end of its stop phase. */
  lemma {:induction false} OpenInTime(ws: seq<World>, es: seq<Event>, ts: seq<int>, i: nat, k: nat, p: nat)
    requires Punctual(ws, es, ts) && k < |es| && OneQuery(ws, es, i, k) && Sent(ws, es, i, k, p)
    requires ws[k].node.rx.query.on
    ensures ts[k] - ts[p] <= MAX_BACKWARD_SETTLING
  {
    hide Inv, Step, Timeouts, QueryEnds, Wrap, Reached, TimersAgree;
    assert OnTimeAt(ws, es, ts, p) && PunctualAt(ws, es, ts, k);
    OpenBefore(ws, es, p + 1, k, k);
    ReachedFrom(ts[p], ts[p], MAX_BACKWARD_SETTLING);
    AtOnce(es[p], ts[p]);
    if p + 1 < k {
      OpenBefore(ws, es, p + 1, k - 1, k);
      OpenInTime(ws, es, ts, i, k - 1, p);
      ReachedFrom(ts[p], ts[k - 1], MAX_BACKWARD_SETTLING);
    }
  }

  lemma AtOnce(e: Event, t: int)
    requires e.now == Wrap(t)
    ensures Handled(e, t) == t
  {}

  /** In true time, the timeout comes 13.4 ms after the end of the stop phase, unless the counter has gone
      round in between. */
  lemma TimeoutTime(ws: seq<World>, es: seq<Event>, ts: seq<int>, p: nat, m: nat)
    requires Timed(ws, es, ts) && p < m < |es| && StopPhaseEnds(ws[p], es[p])
    requires es[m].QueryMatch? && ws[m].node.rx.query == ws[p + 1].node.rx.query
    ensures ts[m] - ts[p] >= 13_400
    ensures ts[m] - ts[p] < WORD ==> ts[m] - ts[p] == 13_400
  {
    hide Step;
    assert FollowsAt(ws, es, p) && OnTimeAt(ws, es, ts, m) && OnTimeAt(ws, es, ts, p);
    QueryArmed(ws[p], es[p]);
    LaterBy(ts[p], ts[m], MAX_BACKWARD_SETTLING);
    hide Wrap;
  }

  /** The query is over, in true time: answered by a start edge within 13.4 ms of the end of its stop phase, and then
      there is no timeout; or it has one timeout, exactly 13.4 ms after it, that reports nothing but its time. */
  ghost predicate Over(ws: seq<World>, es: seq<Event>, ts: seq<int>, i: nat, k: nat, p: nat, o: Outcome)
    requires i < p < k <= |es| == |ts| == |ws| - 1
  {
    var timeouts := Timeouts(ws[k].node.rx.queue) - Timeouts(ws[i].node.rx.queue);
    match o
    case Open => false
    case Answered(m) =>
      p < m < k && Answers(ws[m], es[m]) && ts[m] - ts[p] <= 13_400 && timeouts == 0
    case TimedOut(m) =>
      && p < m < k && es[m].QueryMatch? && Listening(ws[m].node.rx.status)
      && ts[m] - ts[p] == 13_400 && timeouts == 1
      && ws[m + 1].node.rx.queue == ws[m].node.rx.queue + [TimeoutFrame(es[m].tick)]
    case Dropped(m) =>
      && p < m < k && es[m].QueryMatch? && !Listening(ws[m].node.rx.status)
      && ts[m] - ts[p] == 13_400 && timeouts == 0
  }

  /** The query property. If no match interrupt is missed, a query sent while nothing waits and no older query is
      open is either still to be sent (`p` is -1), or its stop phase has ended exactly once, at `p`, and it is over
      or not older than 13.4 ms. It yields exactly one of an answer and a timeout, unless a reception goes on from the
      end of the stop phase until 13.4 ms after it: then, and only then, it yields neither. */
  lemma ExactlyOne(ws: seq<World>, es: seq<Event>, ts: seq<int>, i: nat, k: nat) returns (p: int, o: Outcome)
    requires Punctual(ws, es, ts) && OneQuery(ws, es, i, k)
    ensures p == -1 ==> Unsent(ws, es, i, k)
    ensures p != -1 ==>
              && p >= 0 && Sent(ws, es, i, k, p)
              && (if o.Open? then ts[k - 1] - ts[p] <= 13_400
                  else Over(ws, es, ts, i, k, p, o) && (o.Dropped? <==> Busy(ws, p + 1, o.at)))
  {
    hide Inv, Step, Timeouts, Busy, EndsOnlyAt, StopPhaseEnds, TimersAgree, Answers;
    p, o := QueryRun(ws, es, i, k);
    if p != -1 {
      match o
      case Open =>
        if k - 1 > p {
          OpenBefore(ws, es, p + 1, k - 1, k);
          SentEarlier(ws, es, i, k - 1, k, p);
          OpenInTime(ws, es, ts, i, k - 1, p);
        }
      case Answered(m) => OverAt(ws, es, ts, i, m, k, p);
      case TimedOut(m) => OverAt(ws, es, ts, i, m, k, p);
      case Dropped(m) => OverAt(ws, es, ts, i, m, k, p);
    }
  }

  lemma SentEarlier(ws: seq<World>, es: seq<Event>, i: nat, m: nat, k: nat, p: nat)
    requires OneQuery(ws, es, i, k) && Sent(ws, es, i, k, p) && p < m <= k && ws[m].node.rx.query.on
    ensures OneQuery(ws, es, i, m) && Sent(ws, es, i, m, p)
  {
    OpenBefore(ws, es, p + 1, m, m);
    hide Inv, Follows, Timeouts, StopPhaseEnds;
  }

  lemma OverAt(ws: seq<World>, es: seq<Event>, ts: seq<int>, i: nat, m: nat, k: nat, p: nat)
    requires Punctual(ws, es, ts) && OneQuery(ws, es, i, k) && Sent(ws, es, i, k, p) && p < m < k
    requires ws[m].node.rx.query == ws[p + 1].node.rx.query
    ensures ts[m] - ts[p] <= MAX_BACKWARD_SETTLING
    ensures es[m].QueryMatch? ==> ts[m] - ts[p] == MAX_BACKWARD_SETTLING
  {
    hide Inv, Step, Timeouts, EndsOnlyAt, QueryEnds, TimersAgree;
    SentEarlier(ws, es, i, m, k, p);
    OpenInTime(ws, es, ts, i, m, p);
    if es[m].QueryMatch? { TimeoutTime(ws, es, ts, p, m); }
  }

  // ---- frames that are not queries ----

  /** No query is being sent and none is open. */
  predicate QueryFree(n: Node) {
    !n.tx.isQuery && !n.rx.query.on
  }

  /** None of the frames sent is a query. */
  ghost predicate NoQuery(es: seq<Event>, i: nat, k: nat)
    requires i <= k <= |es|
  {
    forall m :: i <= m < k && es[m].Send? ==> !es[m].frame.kind.Query?
  }

  lemma QueryFreeStep(w: World, e: Event)
    requires Inv(w) && Enabled(w, e) && QueryFree(w.node) && (e.Send? ==> !e.frame.kind.Query?)
    ensures QueryFree(Step(w, e).node) && !StopPhaseEnds(w, e)
    ensures Timeouts(Step(w, e).node.rx.queue) == Timeouts(w.node.rx.queue)
  {
    TimeoutStep(w, e);
    if !e.Send? {
      QueryStep(w, e);
    } else if e.frame.kind != NoFrame {
      MarkSent(w, e);
    } else {
      NothingSent(w, e);
    }
    hide Step, Inv, Timeouts;
  }

  lemma NothingSent(w: World, e: Event)
    requires Ready(w.node.tx) && Enabled(w, e) && e.Send? && e.frame.kind == NoFrame
    ensures Step(w, e) == w
  {}

  /** Only queries time out. From a moment at which no query is being sent and none is open, and as long as no query is
      sent, no stop phase arms the query channel, and no timeout is reported, whatever else is sent and received. */
  lemma {:induction false} OnlyQueriesTimeOut(ws: seq<World>, es: seq<Event>, i: nat, k: nat)
    requires Run(ws, es) && i <= k <= |es| && Inv(ws[i]) && QueryFree(ws[i].node) && NoQuery(es, i, k)
    ensures Inv(ws[k]) && QueryFree(ws[k].node) && EndsOnlyAt(ws, es, i, k, -1)
    ensures Timeouts(ws[k].node.rx.queue) == Timeouts(ws[i].node.rx.queue)
  {
    hide Inv, Step, Timeouts, StopPhaseEnds, QueryFree;
    if i < k {
      OnlyQueriesTimeOut(ws, es, i, k - 1);
      assert FollowsAt(ws, es, k - 1);
      InvStep(ws[k - 1], es[k - 1]);
      QueryFreeStep(ws[k - 1], es[k - 1]);
    }
  }

  /** So a run from boot in which no query is sent reports no timeout at all. */
  lemma NoTimeoutFromBoot(ws: seq<World>, es: seq<Event>, k: nat)
    requires FromBoot(ws, es) && k <= |es| && NoQuery(es, 0, k)
    ensures Timeouts(ws[k].node.rx.queue) == 0 && QueryFree(ws[k].node)
  {
    InvFromBoot(ws, es, 0);
    hide Inv, Follows;
    OnlyQueriesTimeOut(ws, es, 0, k);
  }
}
