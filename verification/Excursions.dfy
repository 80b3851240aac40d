/** What the receiver reports over whole runs: every excursion of the bus is reported once, power failures
    and recoveries alternate, and the twice flag compares neighbouring data frames. */
module Excursions {
  import opened Dali
  import opened TxSpec
  import opened RxSpec
  import opened Runs

  // ---- the state diagram ----

  /** The diagram of the receiver: from which status to which it goes without queueing a frame. */
  predicate Silent(from: Status, to: Status) {
    match from
    case IDLE => to == IDLE || to == START_BIT_START
    case INTER_FRAME_IDLE => Listening(to) || to == START_BIT_START
    case ERROR_IN_FRAME => to == ERROR_IN_FRAME || to == LOW || to == INTER_FRAME_IDLE
    case LOW => to == LOW
    case FAILURE => to == FAILURE
    case _ => InBit(to) || to == LOW
  }

  /** ... and from which to which with a frame of the given code. */
  predicate Telling(from: Status, code: Code, to: Status) {
    match code
    case OK => InBit(from) && to == INTER_FRAME_IDLE
    case TIMEOUT => Listening(from) && to == IDLE
    case SYSTEM_FAILURE => from == LOW && to == FAILURE
    case SYSTEM_RECOVER => from == FAILURE && to == IDLE
    case RECEIVE_START_TIMING => if from == LOW then to == IDLE else InBit(from) && to == ERROR_IN_FRAME
    case RECEIVE_DATA_TIMING => if from == LOW then to == IDLE else InBit(from) && to == ERROR_IN_FRAME
    case _ => false
  }

  ghost predicate Reports(rx: RxState, rx': RxState) {
    if rx'.queue == rx.queue then
      Silent(rx.status, rx'.status) && rx'.lastFrame == rx.lastFrame
    else
      && |rx'.queue| == |rx.queue| + 1 && rx'.queue == rx.queue + [Newest(rx')]
      && Telling(rx.status, Newest(rx').code, rx'.status)
      && if Newest(rx').code == OK then
           rx'.lastFrame == rx.frame && Newest(rx') == rx.frame.(twice := ReceivedTwice(rx.lastFrame, rx.frame))
         else rx'.lastFrame == rx.lastFrame
  }

  function Newest(rx: RxState): RxFrame
    requires rx.queue != []
  {
    rx.queue[|rx.queue| - 1]
  }

  /** Every step of every run is one of the diagram. */
  lemma StepReports(w: World, e: Event)
    requires Inv(w) && Enabled(w, e)
    ensures Reports(w.node.rx, Step(w, e).node.rx)
  {
    match e
    case Capture(_, _, _) =>
      if InBit(w.node.rx.status) { ReportsBit(w, e); }
      else if w.active { ReportsRelease(w, e); }
      else { ReportsCapture(w, e); }
    case StopMatch(_, _) => if w.active { ReportsLow(w, e); } else { ReportsStop(w, e); }
    case _ => ReportsOther(w, e);
  }

  lemma ReportsBit(w: World, e: Event)
    requires Inv(w) && e.Capture? && InBit(w.node.rx.status)
    ensures Reports(w.node.rx, Step(w, e).node.rx)
  {
    hide Wrap, ErrorData, CorrectedDifference, CheckStartTiming, InsideBit, ShiftIn, ReceivedTwice;
    hide FrameAgrees, TimersAgree, RepeatsAgree, StartReception, Recover;
    var rx := CaptureIsr(w.node.rx, e.count);
    if rx.status == START_BIT_START || rx.status == DATA_BIT_START {
      BeginBit(rx, if rx.status == START_BIT_START then START_BIT_INSIDE else DATA_BIT_INSIDE, e.tick);
    } else {
      InsideBitCases(rx, e.tick);
    }
  }

  lemma ReportsCapture(w: World, e: Event)
    requires Inv(w) && e.Capture? && !InBit(w.node.rx.status) && !w.active
    ensures Reports(w.node.rx, Step(w, e).node.rx)
  {
    hide Wrap, ErrorData, CorrectedDifference, ManageTx, CheckStartTiming, InsideBit, TimersAgree, RepeatsAgree;
    hide FrameAgrees, ReceivedTwice, TxSpec.Valid, Recover;
  }

  /** The line has come back to idle. */
  lemma ReportsRelease(w: World, e: Event)
    requires Inv(w) && e.Capture? && !InBit(w.node.rx.status) && w.active
    ensures Reports(w.node.rx, Step(w, e).node.rx)
  {
    hide Wrap, ErrorData, CorrectedDifference, ManageTx, CheckStartTiming, InsideBit, TimersAgree, RepeatsAgree;
    hide FrameAgrees, ReceivedTwice, TxSpec.Valid;
  }

  lemma ReportsStop(w: World, e: Event)
    requires Inv(w) && Enabled(w, e) && e.StopMatch? && !w.active
    ensures Reports(w.node.rx, Step(w, e).node.rx)
  {
    hide Wrap, ErrorData, ReceivedTwice, ManageTx, ProcessPendingFrame, QueueError, TimersAgree, RepeatsAgree;
  }

  lemma ReportsLow(w: World, e: Event)
    requires Inv(w) && Enabled(w, e) && e.StopMatch? && w.active
    ensures Reports(w.node.rx, Step(w, e).node.rx)
  {
    hide Wrap, ErrorData, ReceivedTwice, ManageTx, ProcessPendingFrame, EndOfError, QueueFrame;
    hide TimersAgree, RepeatsAgree;
  }

  lemma ReportsOther(w: World, e: Event)
    requires Inv(w) && Enabled(w, e) && !e.Capture? && !e.StopMatch?
    ensures Reports(w.node.rx, Step(w, e).node.rx)
  {
    hide Wrap, Load, TimerMatch, LevelAgrees, RepeatsAgree;
  }

  lemma RunReports(ws: seq<World>, es: seq<Event>, k: nat)
    requires Run(ws, es) && k + 1 < |ws| && Inv(ws[k])
    ensures Reports(ws[k].node.rx, ws[k + 1].node.rx) && Inv(ws[k + 1])
  {
    hide Step, Inv, Reports;
    assert FollowsAt(ws, es, k);
    StepReports(ws[k], es[k]);
    InvStep(ws[k], es[k]);
  }

  // ---- excursions ----

  ghost predicate AllErrors(frames: seq<RxFrame>) {
    forall k :: 0 <= k < |frames| ==> frames[k].code != OK && frames[k].code != TIMEOUT
  }

  /** What an excursion has queued so far, by the status it is in. */
  ghost predicate UnderReport(status: Status, frames: seq<RxFrame>) {
    match status
    case ERROR_IN_FRAME => |frames| == 1 && AllErrors(frames)
    case LOW => |frames| <= 1 && AllErrors(frames)
    case FAILURE => 1 <= |frames| <= 2 && AllErrors(frames)
    case _ => InBit(status) && frames == []
  }

  ghost predicate Excursion(ws: seq<World>, es: seq<Event>, i: nat, j: nat) {
    && Run(ws, es) && i + 1 < j < |ws| && Inv(ws[i])
    && Listening(ws[i].node.rx.status) && Listening(ws[j].node.rx.status)
    && forall k :: i < k < j ==> !Listening(ws[k].node.rx.status)
  }

  ghost predicate Closed(frames: seq<RxFrame>) {
    (|frames| == 1 && frames[0].code == OK) || (1 <= |frames| <= 3 && AllErrors(frames))
  }

  lemma UnderReportStep(rx: RxState, rx': RxState, base: seq<RxFrame>)
    requires Reports(rx, rx') && base <= rx.queue && UnderReport(rx.status, rx.queue[|base|..])
    ensures base <= rx'.queue
    ensures if Listening(rx'.status) then Closed(rx'.queue[|base|..]) else UnderReport(rx'.status, rx'.queue[|base|..])
  {
    if rx'.queue != rx.queue {
      assert rx'.queue[|base|..] == rx.queue[|base|..] + [Newest(rx')];
    }
  }

  lemma {:induction false} ExcursionSoFar(ws: seq<World>, es: seq<Event>, i: nat, j: nat, k: nat)
    requires Excursion(ws, es, i, j) && i < k < j
    ensures Inv(ws[k]) && ws[i].node.rx.queue <= ws[k].node.rx.queue
    ensures UnderReport(ws[k].node.rx.status, ws[k].node.rx.queue[|ws[i].node.rx.queue|..])
  {
    hide Inv, Follows;
    if k > i + 1 {
      ExcursionSoFar(ws, es, i, j, k - 1);
      RunReports(ws, es, k - 1);
      UnderReportStep(ws[k - 1].node.rx, ws[k].node.rx, ws[i].node.rx.queue);
      hide Reports, UnderReport;
    } else {
      RunReports(ws, es, i);
    }
  }

  /** Excursion safety. From leaving the listening states to returning to them, the receiver queues either one
      good frame and no error, or one to three error frames and no good frame. */
  lemma ExcursionReportedOnce(ws: seq<World>, es: seq<Event>, i: nat, j: nat)
    requires Excursion(ws, es, i, j)
    ensures ws[i].node.rx.queue <= ws[j].node.rx.queue
    ensures Closed(ws[j].node.rx.queue[|ws[i].node.rx.queue|..])
  {
    hide Inv, Follows, Reports, UnderReport, Closed;
    ExcursionSoFar(ws, es, i, j, j - 1);
    RunReports(ws, es, j - 1);
    UnderReportStep(ws[j - 1].node.rx, ws[j].node.rx, ws[i].node.rx.queue);
  }

  /** Once an excursion has left the bit states it does not return to them: an error is final. */
  lemma {:induction false} ErrorIsFinal(ws: seq<World>, es: seq<Event>, i: nat, j: nat, k: nat, m: nat)
    requires Excursion(ws, es, i, j) && i < k <= m < j
    requires !InBit(ws[k].node.rx.status)
    ensures !InBit(ws[m].node.rx.status)
  {
    hide Inv, Follows;
    if k < m {
      ErrorIsFinal(ws, es, i, j, k, m - 1);
      ExcursionSoFar(ws, es, i, j, m - 1);
      RunReports(ws, es, m - 1);
    }
  }

  // ---- power failures ----

  /** The failures and recoveries among the queued frames. */
  function Outages(q: seq<RxFrame>): seq<Code> {
    if q == [] then [] else
    var earlier, code := Outages(q[..|q| - 1]), q[|q| - 1].code;
    if code == SYSTEM_FAILURE || code == SYSTEM_RECOVER then earlier + [code] else earlier
  }

  lemma OutagesAppend(q: seq<RxFrame>, f: RxFrame)
    ensures Outages(q + [f]) ==
            if f.code == SYSTEM_FAILURE || f.code == SYSTEM_RECOVER then Outages(q) + [f.code] else Outages(q)
  {
    assert (q + [f])[..|q|] == q;
  }

  /** The bus is down after `outages`, given whether it was down at boot. */
  predicate Down(boot: bool, outages: seq<Code>) {
    DownBefore(boot, outages, |outages|)
  }

  predicate DownBefore(boot: bool, outages: seq<Code>, k: nat)
    requires k <= |outages|
  {
    if k == 0 then boot else outages[k - 1] == SYSTEM_FAILURE
  }

  /** A failure is reported when the bus was up, a recovery when it was down. */
  ghost predicate Alternate(boot: bool, outages: seq<Code>) {
    forall k :: 0 <= k < |outages| ==> (outages[k] == SYSTEM_FAILURE <==> !DownBefore(boot, outages, k))
  }

  /** Failures and recoveries alternate over every run; a recovery comes first exactly if the bus was active
      at boot. The receiver is in FAILURE exactly while the bus is reported down. */
  lemma {:induction false} OutagesAlternate(ws: seq<World>, es: seq<Event>, boot: bool, k: nat)
    requires Run(ws, es) && ws[0] == BootWorld(boot) && k < |ws|
    ensures Inv(ws[k])
    ensures var outages := Outages(ws[k].node.rx.queue);
            Alternate(boot, outages) && (ws[k].node.rx.status == FAILURE <==> Down(boot, outages))
  {
    hide Inv, Follows, BootWorld, Reports, Outages, Alternate, Down;
    if k == 0 {
      InvBoot(boot);
      BootOutages(boot);
    } else {
      OutagesAlternate(ws, es, boot, k - 1);
      RunReports(ws, es, k - 1);
      OutagesStep(boot, ws[k - 1].node.rx, ws[k].node.rx);
    }
  }

  lemma BootOutages(boot: bool)
    ensures var rx := BootWorld(boot).node.rx;
            Alternate(boot, Outages(rx.queue)) && (rx.status == FAILURE <==> Down(boot, Outages(rx.queue)))
  {}

  lemma OutagesStep(boot: bool, rx: RxState, rx': RxState)
    requires Reports(rx, rx') && Alternate(boot, Outages(rx.queue))
    requires rx.status == FAILURE <==> Down(boot, Outages(rx.queue))
    ensures Alternate(boot, Outages(rx'.queue))
    ensures rx'.status == FAILURE <==> Down(boot, Outages(rx'.queue))
  {
    if rx'.queue != rx.queue {
      hide Outages, Alternate, Down, Telling;
      OutagesAppend(rx.queue, Newest(rx'));
      FailureChange(rx, rx');
      if rx'.status == FAILURE || rx.status == FAILURE {
        AlternateAppend(boot, Outages(rx.queue), Newest(rx').code);
      }
    }
  }

  /** A failure or a recovery is told exactly when the status goes to or from FAILURE. */
  lemma FailureChange(rx: RxState, rx': RxState)
    requires Reports(rx, rx') && rx'.queue != rx.queue
    ensures Newest(rx').code == SYSTEM_FAILURE <==> rx'.status == FAILURE
    ensures Newest(rx').code == SYSTEM_RECOVER <==> rx.status == FAILURE
  {}

  lemma AlternateAppend(boot: bool, outages: seq<Code>, code: Code)
    requires Alternate(boot, outages) && (code == SYSTEM_FAILURE <==> !Down(boot, outages))
    ensures Alternate(boot, outages + [code]) && (Down(boot, outages + [code]) <==> code == SYSTEM_FAILURE)
  {
    var longer := outages + [code];
    forall k | 0 <= k < |longer|
      ensures longer[k] == SYSTEM_FAILURE <==> !DownBefore(boot, longer, k)
    {
      if k < |outages| {
        assert DownBefore(boot, longer, k) == DownBefore(boot, outages, k);
      }
    }
  }

  ghost predicate Queues(rx: RxState, rx': RxState, code: Code) {
    rx'.queue != rx.queue && rx'.queue != [] && Newest(rx').code == code
  }

  /** A failure is reported only after the line has been active for 500 ms since the last edge: exactly then,
      unless the counter has gone round in between. */
  lemma FailureIsLate(ws: seq<World>, es: seq<Event>, ts: seq<int>, k: nat) returns (c: nat)
    requires Timed(ws, es, ts) && FromBoot(ws, es) && k < |es|
    requires Queues(ws[k].node.rx, ws[k + 1].node.rx, SYSTEM_FAILURE)
    ensures c < k && es[c].Capture? && (forall m :: c < m < k ==> !es[m].Capture?)
    ensures forall m :: c < m <= k ==> ws[m].active
    ensures ts[k] - ts[c] >= 500_000
    ensures ts[k] - ts[c] < WORD ==> ts[k] - ts[c] == 500_000
  {
    InvFromBoot(ws, es, k);
    RunReports(ws, es, k);
    assert FollowsAt(ws, es, k);
    var last := EdgeBefore(ws, es, k);
    OnlyStopFails(ws[k], es[k], ws[k + 1]);
    assert OnTimeAt(ws, es, ts, k);
    c := last;
    assert OnTimeAt(ws, es, ts, c);
    SinceEdge(ts[c], ts[k]);
    hide Step, Wrap;
  }

  lemma OnlyStopFails(w: World, e: Event, after: World)
    requires Inv(w) && Follows(w, e, after) && Reports(w.node.rx, after.node.rx)
    requires Queues(w.node.rx, after.node.rx, SYSTEM_FAILURE)
    ensures e.StopMatch? && w.node.rx.status == LOW && w.node.rx.stop.on
  {
    hide Load, TimerMatch, Wrap, ErrorData, ManageTx, CorrectedDifference;
  }

  lemma SinceEdge(edge: int, t: int)
    requires edge <= t && Wrap(Wrap(edge) + MIN_FAILURE) == Wrap(t)
    ensures t - edge >= MIN_FAILURE
    ensures t - edge < WORD ==> t - edge == MIN_FAILURE
  {}

  // ---- the twice flag ----

  /** The data frames among the queued frames. */
  function DataFrames(q: seq<RxFrame>): seq<RxFrame> {
    if q == [] then [] else
    var earlier, f := DataFrames(q[..|q| - 1]), q[|q| - 1];
    if f.code == OK then earlier + [f] else earlier
  }

  lemma DataFramesAppend(q: seq<RxFrame>, f: RxFrame)
    ensures DataFrames(q + [f]) == if f.code == OK then DataFrames(q) + [f] else DataFrames(q)
  {
    assert (q + [f])[..|q|] == q;
  }

  /** The data frame before number `k`; before the first one, an empty frame of time 0. */
  function Previous(frames: seq<RxFrame>, k: nat): RxFrame
    requires k <= |frames|
  {
    if k == 0 then EMPTY_FRAME else frames[k - 1]
  }

  ghost predicate TwiceExact(frames: seq<RxFrame>) {
    forall k :: 0 <= k < |frames| ==>
      (frames[k].twice <==>
        && frames[k].length == Previous(frames, k).length && frames[k].data == Previous(frames, k).data
        && Wrap(frames[k].timestamp - Previous(frames, k).timestamp) < 95)
  }

  ghost predicate LastIs(rx: RxState, frames: seq<RxFrame>) {
    rx.lastFrame == Previous(frames, |frames|).(twice := false)
  }

  /** Over every run, a data frame carries `twice` exactly if the data frame before it has the same length and
      data and started less than 95 ms earlier, whatever errors and repetitions lie between; the first data
      frame is compared with an empty frame of time 0. */
  lemma {:induction false} TwiceOverRun(ws: seq<World>, es: seq<Event>, k: nat)
    requires FromBoot(ws, es) && k < |ws|
    ensures TwiceExact(DataFrames(ws[k].node.rx.queue)) && LastIs(ws[k].node.rx, DataFrames(ws[k].node.rx.queue))
  {
    InvFromBoot(ws, es, k);
    if k > 0 {
      InvFromBoot(ws, es, k - 1);
      hide Inv, BootWorld;
      TwiceOverRun(ws, es, k - 1);
      RunReports(ws, es, k - 1);
      TwiceStep(ws[k - 1], ws[k].node.rx);
    }
  }

  lemma TwiceStep(w: World, rx': RxState)
    requires Inv(w) && Reports(w.node.rx, rx')
    requires var frames := DataFrames(w.node.rx.queue); TwiceExact(frames) && LastIs(w.node.rx, frames)
    ensures var frames := DataFrames(rx'.queue); TwiceExact(frames) && LastIs(rx', frames)
  {
    hide DataFrames, Wrap, TwiceExact, LevelAgrees, TimersAgree, RepeatsAgree;
    var rx := w.node.rx;
    if rx'.queue != rx.queue {
      DataFramesAppend(rx.queue, Newest(rx'));
      if Newest(rx').code == OK {
        TwiceAppended(DataFrames(rx.queue), rx.frame, Newest(rx'));
      }
    }
  }

  lemma TwiceAppended(frames: seq<RxFrame>, frame: RxFrame, f: RxFrame)
    requires TwiceExact(frames) && f == frame.(twice := ReceivedTwice(Previous(frames, |frames|), frame))
    ensures TwiceExact(frames + [f])
  {
    hide Wrap;
    var all := frames + [f];
    forall k | 0 <= k < |frames| ensures all[k] == frames[k] && Previous(all, k) == Previous(frames, k) {}
  }
}
