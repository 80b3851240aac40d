/** Repeated frames: how many copies of an accepted frame are transmitted. */
module Repeats {
  import opened Dali
  import opened Encoder
  import opened TxSpec
  import opened RxSpec
  import opened Runs

  /** Copies transmitted, waiting for their turn, and still to be asked for. */
  function Copies(n: Node): nat {
    n.tx.starts + n.tx.repeat + if n.rx.waiting then 1 else 0
  }

  /** A reception ends: the moment at which the receiver asks the transmitter for its next copy. */
  predicate EndsReception(w: World, e: Event) {
    var status := w.node.rx.status;
    || (e.StopMatch? && !w.active && !Listening(status))
    || (e.Capture? && w.active && (status == LOW || status == FAILURE))
  }

  /** The next copy is asked for although the one before it has not been transmitted yet. */
  predicate LosesCopy(w: World, e: Event) {
    EndsReception(w, e) && w.node.tx.indexNext != 0 && w.node.tx.repeat > 0 && w.node.rx.waiting
  }

  ghost predicate Balanced(w: World, e: Event, n': Node) {
    var n := w.node;
    && Copies(n') + (if LosesCopy(w, e) then 1 else 0) == Copies(n)
    && n.tx.starts <= n'.tx.starts
    && n'.tx.count == n.tx.count && n'.tx.indexMax == n.tx.indexMax
    && (n'.rx.waiting ==> n'.tx.starts == n.tx.starts)
    && (WaitsBehind(n') && !WaitsBehind(n) ==> EndsReception(w, e))
    && n'.rx.waitingType == n.rx.waitingType
    && (!e.PeriodMatch? ==> n'.tx.starts == n.tx.starts && (n.rx.waiting ==> n'.rx.waiting))
  }

  /** A copy waits although the transmitter is claimed. */
  predicate WaitsBehind(n: Node) {
    n.rx.waiting && n.tx.indexNext != 0
  }

  /** What one step does to the copies. */
  lemma CopyStep(w: World, e: Event)
    requires Inv(w) && Enabled(w, e) && !e.Send?
    ensures Balanced(w, e, Step(w, e).node)
  {
    match e
    case Capture(_, _, _) =>
      if InBit(w.node.rx.status) { CopyBit(w, e); } else { CopyCapture(w, e); }
    case StopMatch(_, _) => if w.active { CopyStopActive(w, e); } else { CopyStopIdle(w, e); }
    case _ => CopyOther(w, e);
  }

  lemma CopyBit(w: World, e: Event)
    requires Inv(w) && e.Capture? && InBit(w.node.rx.status)
    ensures Balanced(w, e, Step(w, e).node)
  {
    hide Wrap, ErrorData, CorrectedDifference, CheckStartTiming, InsideBit, ShiftIn, StartReception, Recover;
    hide FrameAgrees, TimersAgree, LevelAgrees;
    var rx := CaptureIsr(w.node.rx, e.count);
    if rx.status == START_BIT_START || rx.status == DATA_BIT_START {
      BeginBit(rx, if rx.status == START_BIT_START then START_BIT_INSIDE else DATA_BIT_INSIDE, e.tick);
    } else {
      InsideBitCases(rx, e.tick);
    }
  }

  lemma CopyCapture(w: World, e: Event)
    requires Inv(w) && e.Capture? && !InBit(w.node.rx.status)
    ensures Balanced(w, e, Step(w, e).node)
  {
    hide Wrap, ErrorData, CorrectedDifference, ManageTx, CheckStartTiming, InsideBit, FrameAgrees, TimersAgree;
  }

  lemma CopyStopActive(w: World, e: Event)
    requires Inv(w) && Enabled(w, e) && e.StopMatch? && w.active
    ensures Balanced(w, e, Step(w, e).node)
  {
    hide Wrap, ErrorData, ManageTx, ProcessPendingFrame, QueueFrame, FrameAgrees, TimersAgree;
  }

  lemma CopyStopIdle(w: World, e: Event)
    requires Inv(w) && Enabled(w, e) && e.StopMatch? && !w.active
    ensures Balanced(w, e, Step(w, e).node)
  {
    if !Listening(w.node.rx.status) {
      if w.node.tx.indexNext != 0 { StopEffect(w, e); } else { StopUnclaimed(w, e); }
      hide Step, EndOf, FrameAgrees, TimersAgree, LevelAgrees;
    }
    hide Wrap, ReceivedTwice, ManageTx, ProcessPendingFrame, QueueError, FrameAgrees, TimersAgree;
  }

  lemma CopyOther(w: World, e: Event)
    requires Inv(w) && Enabled(w, e) && (e.PeriodMatch? || e.QueryMatch? || e.TxMatch?)
    ensures Balanced(w, e, Step(w, e).node)
  {
    hide Wrap, FrameAgrees, TimersAgree, LevelAgrees;
  }

  /** A frame is accepted when nothing waits: it brings its repeats and one more copy. */
  lemma CopyAccepted(w: World, e: Event)
    requires Inv(w) && Enabled(w, e) && e.Send? && e.frame.kind != NoFrame && !w.node.rx.waiting
    ensures var n, n' := w.node, Step(w, e).node;
            && Copies(n') == n.tx.starts + e.frame.repeat + 1
            && !WaitsBehind(n')
  {
    hide Wrap, Load, FrameStartCount, FrameAgrees, TimersAgree, LevelAgrees;
  }

  // ---- over a run ----

  ghost predicate NoSend(es: seq<Event>, i: nat, k: nat)
    requires i <= k <= |es|
  {
    forall m :: i <= m < k ==> !es[m].Send?
  }

  /** How many of the events from `i` up to `k` lose a copy. */
  function Lost(ws: seq<World>, es: seq<Event>, i: nat, k: nat): nat
    requires i <= k <= |es| == |ws| - 1
  {
    if k == i then 0 else Lost(ws, es, i, k - 1) + if LosesCopy(ws[k - 1], es[k - 1]) then 1 else 0
  }

  /** Conservation of copies over every run: a copy is transmitted, or waits, or is still to come, or was
      lost. All copies are the same counts. */
  lemma {:induction false} Conservation(ws: seq<World>, es: seq<Event>, i: nat, k: nat)
    requires Run(ws, es) && i <= k <= |es| && Inv(ws[i]) && NoSend(es, i, k)
    ensures Inv(ws[k])
    ensures Copies(ws[k].node) + Lost(ws, es, i, k) == Copies(ws[i].node)
    ensures ws[k].node.tx.count == ws[i].node.tx.count && ws[k].node.tx.indexMax == ws[i].node.tx.indexMax
    ensures ws[i].node.tx.starts <= ws[k].node.tx.starts
  {
    if i < k {
      hide Inv, Step, LosesCopy, Copies;
      Conservation(ws, es, i, k - 1);
      assert FollowsAt(ws, es, k - 1);
      CopyStep(ws[k - 1], es[k - 1]);
      InvStep(ws[k - 1], es[k - 1]);
    }
  }

  /** Event `i` accepts a frame while nothing waits, and no other frame is sent before `k`. */
  ghost predicate OneFrame(ws: seq<World>, es: seq<Event>, i: nat, k: nat) {
    && Run(ws, es) && i < k <= |es| && Inv(ws[i])
    && es[i].Send? && es[i].frame.kind != NoFrame && !ws[i].node.rx.waiting
    && NoSend(es, i + 1, k)
  }

  /** The transmitter is idle and nothing waits. */
  predicate Done(n: Node) {
    n.tx.indexNext == 0 && !n.rx.waiting
  }

  /** The exact number of transmissions. A frame with repeat r that has run to its end was transmitted r + 1
      times, less one for every copy that was asked for while another one waited. */
  lemma RepeatsExact(ws: seq<World>, es: seq<Event>, i: nat, k: nat)
    requires OneFrame(ws, es, i, k) && Done(ws[k].node)
    ensures ws[k].node.tx.starts - ws[i].node.tx.starts == es[i].frame.repeat + 1 - Lost(ws, es, i + 1, k)
  {
    FirstStep(ws, es, i, k);
    Conservation(ws, es, i + 1, k);
    hide LevelAgrees, FrameAgrees, TimersAgree, Ready;
  }

  /** When a copy waits behind a transmission, a reception has ended since that transmission started. */
  lemma {:induction false} WaitingSince(ws: seq<World>, es: seq<Event>, i: nat, k: nat) returns (p: nat)
    requires OneFrame(ws, es, i, k) && WaitsBehind(ws[k].node)
    ensures i < p < k && EndsReception(ws[p], es[p]) && ws[p].node.tx.starts == ws[k].node.tx.starts
  {
    FirstStep(ws, es, i, k);
    hide Inv, Step, EndsReception, LosesCopy, WaitsBehind;
    assert i + 1 < k;
    Conservation(ws, es, i + 1, k - 1);
    assert FollowsAt(ws, es, k - 1);
    CopyStep(ws[k - 1], es[k - 1]);
    p := k - 1;
    if WaitsBehind(ws[k - 1].node) {
      p := WaitingSince(ws, es, i, k - 1);
    }
    WaitingStarts(ws[k - 1], es[k - 1], ws[k].node);
  }

  lemma WaitingStarts(w: World, e: Event, n': Node)
    requires Balanced(w, e, n') && WaitsBehind(n')
    ensures n'.tx.starts == w.node.tx.starts
    ensures !WaitsBehind(w.node) ==> EndsReception(w, e)
  {}

  lemma FirstStep(ws: seq<World>, es: seq<Event>, i: nat, k: nat)
    requires OneFrame(ws, es, i, k)
    ensures Inv(ws[i + 1]) && !WaitsBehind(ws[i + 1].node)
    ensures Copies(ws[i + 1].node) == ws[i].node.tx.starts + es[i].frame.repeat + 1
  {
    assert FollowsAt(ws, es, i);
    InvStep(ws[i], es[i]);
    CopyAccepted(ws[i], es[i]);
    hide Inv, Step;
  }

  /** Between any two receptions that end, a transmission starts. */
  ghost predicate Undisturbed(ws: seq<World>, es: seq<Event>, i: nat, k: nat)
    requires i <= k <= |es| == |ws| - 1
  {
    forall p, m :: i <= p < m < k && EndsReception(ws[p], es[p]) && EndsReception(ws[m], es[m]) ==>
      ws[p].node.tx.starts < ws[m].node.tx.starts
  }

  lemma {:induction false} NothingLost(ws: seq<World>, es: seq<Event>, i: nat, k: nat)
    requires OneFrame(ws, es, i, k) && Undisturbed(ws, es, i + 1, k)
    ensures Lost(ws, es, i + 1, k) == 0
  {
    if i + 1 < k {
      NothingLost(ws, es, i, k - 1);
      if LosesCopy(ws[k - 1], es[k - 1]) {
        var p := WaitingSince(ws, es, i, k - 1);
      }
      hide EndsReception;
    }
  }

  /** Repeat conservation. A frame accepted with repeat r while nothing waits, on a bus where between two
      receptions there is always a transmission (nobody else talks while a copy waits), is transmitted exactly
      r + 1 times before the transmitter is idle again. */
  lemma RepeatsUndisturbed(ws: seq<World>, es: seq<Event>, i: nat, k: nat)
    requires OneFrame(ws, es, i, k) && Done(ws[k].node) && Undisturbed(ws, es, i + 1, k)
    ensures ws[k].node.tx.starts - ws[i].node.tx.starts == es[i].frame.repeat + 1
  {
    NothingLost(ws, es, i, k);
    RepeatsExact(ws, es, i, k);
  }

  /** Every transmission that starts for an accepted frame, the first one and the repeats alike, puts the edges of
      that frame on the line. */
  lemma CopyOnTheLine(ws: seq<World>, es: seq<Event>, i: nat, k: nat)
    requires OneFrame(ws, es, i, k + 1) && i <= k && ws[k].node.tx.starts < ws[k + 1].node.tx.starts
    ensures Ready(ws[i].node.tx) && Ready(ws[k + 1].node.tx) && es[i].frame.length <= MAX_DATA_LENGTH
    ensures RunTimer(ws[k + 1].node.tx).edges == RunTimer(StartSend(Load(ws[i].node.tx, es[i].frame))).edges
  {
    hide Inv, Step, Load, RunTimer, LosesCopy, EndsReception, StartSend;
    assert FollowsAt(ws, es, i) && FollowsAt(ws, es, k);
    InvAlong(ws, es, i, k + 1);
    SendLoads(ws[i], es[i]);
    TransmissionRun(Load(ws[i].node.tx, es[i].frame));
    if i < k {
      FirstStep(ws, es, i, k);
      Conservation(ws, es, i + 1, k);
      CopyStep(ws[k], es[k]);
      MatchStarts(ws[k], es[k]);
      TransmissionRun(ws[k].node.tx);
    }
    ReadyOf(ws[i]);
    ReadyOf(ws[k + 1]);
  }

  lemma ReadyOf(w: World)
    requires Inv(w)
    ensures Ready(w.node.tx)
  {}

  lemma SendLoads(w: World, e: Event)
    requires Ready(w.node.tx) && Enabled(w, e) && e.Send? && e.frame.kind != NoFrame
    ensures var tx', loaded := Step(w, e).node.tx, Load(w.node.tx, e.frame);
            && tx'.count == loaded.count && tx'.indexMax == loaded.indexMax
            && (w.node.tx.starts < tx'.starts ==> tx' == StartSend(loaded))
  {
    hide Load, Wrap, FrameStartCount;
  }

  lemma MatchStarts(w: World, e: Event)
    requires Ready(w.node.tx) && Enabled(w, e) && e.PeriodMatch?
    requires w.node.rx.waiting || w.node.tx.starts < Step(w, e).node.tx.starts
    ensures Step(w, e).node.tx == StartSend(w.node.tx)
  {}

  // ---- the end of a copy ----

  /** The receiver after a reception that ends on an idle line. */
  function EndOf(rx: RxState, now: Word): (r: RxState)
    ensures r.waiting == rx.waiting && r.waitingType == rx.waitingType && r.period.on && r.query == rx.query
  {
    ProcessPendingFrame(if InBit(rx.status) then QueueFrame(rx) else Reset(rx), now)
  }

  lemma StopEffect(w: World, s: Event)
    requires Inv(w) && !w.active && !Listening(w.node.rx.status) && Enabled(w, s) && s.StopMatch?
    requires w.node.tx.indexNext != 0
    ensures var rx, tx := w.node.rx.(stop := w.node.rx.stop.(on := false)), w.node.tx;
            Step(w, s).node == if tx.repeat == 0 then Node(tx, EndOf(rx, s.now))
                               else Node(tx.(repeat := tx.repeat - 1), EndOf(rx.(waiting := true), s.now))
  {
    hide Wrap, ManageTx, ProcessPendingFrame, QueueFrame, FrameAgrees, TimersAgree, RepeatsAgree;
  }

  lemma EndOfQuery(rx: RxState, q: Match, now: Word)
    ensures EndOf(rx.(query := q), now) == EndOf(rx, now).(query := q)
  {
    hide Wrap;
  }

  /** The last match of the transmit timer. */
  lemma EndOfCopy(w: World, x: Event)
    requires Ready(w.node.tx) && Enabled(w, x) && x.TxMatch? && w.node.tx.indexNext == w.node.tx.indexMax + 1
    ensures var tx, rx := w.node.tx, w.node.rx;
            Step(w, x) == World(Node(
              tx.(timer := TxTimer(false, tx.timer.next, false), active := false, isQuery := false,
                  indexNext := if tx.repeat == 0 then 0 else tx.indexNext),
              if tx.isQuery then ScheduleQuery(rx, x.now) else rx), w.active)
  {
    hide Wrap;
  }

  /** The driver after a copy; the two orders differ in `indexNext` only. */
  function AfterCopy(n: Node, s: Event, x: Event, indexNext: nat): Node
    requires s.StopMatch? && x.TxMatch?
  {
    var query := if n.tx.isQuery then ScheduleQuery(n.rx, x.now).query else n.rx.query;
    var rx := n.rx.(stop := n.rx.stop.(on := false), query := query);
    var tx := n.tx.(timer := TxTimer(false, n.tx.timer.next, false), active := false, isQuery := false,
                    indexNext := indexNext);
    if n.tx.repeat == 0 then Node(tx, EndOf(rx, s.now))
    else Node(tx.(repeat := tx.repeat - 1), EndOf(rx.(waiting := true), s.now))
  }

  /** A copy is about to end: its stop phase is on the line, and the receiver waits for the stop condition. */
  ghost predicate CopyEnds(w: World, s: Event, x: Event) {
    && Inv(w) && !w.active && !Listening(w.node.rx.status) && w.node.rx.stop.on && !w.node.rx.waiting
    && w.node.tx.timer.on && w.node.tx.indexNext == w.node.tx.indexMax + 1
    && s.StopMatch? && x.TxMatch?
  }

  lemma StopThenMatch(w: World, s: Event, x: Event)
    requires CopyEnds(w, s, x)
    ensures Ready(Step(w, s).node.tx) && Enabled(Step(w, s), x)
    ensures Step(Step(w, s), x) ==
            World(AfterCopy(w.node, s, x, if w.node.tx.repeat <= 1 then 0 else w.node.tx.indexNext), w.active)
  {
    hide Step, LevelAgrees, FrameAgrees, TimersAgree, RepeatsAgree, EndOf, AfterCopy;
    StopEffect(w, s);
    InvStep(w, s);
    LevelKept(w, s);
    MatchAfterStop(w, s, x, Step(w, s));
  }

  lemma LevelKept(w: World, s: Event)
    requires Ready(w.node.tx) && Enabled(w, s) && s.StopMatch?
    ensures Step(w, s).active == w.active
  {
    hide OnStopMatch;
  }

  lemma MatchAfterStop(w: World, s: Event, x: Event, w': World)
    requires CopyEnds(w, s, x) && Inv(w') && w'.active == w.active
    requires var rx, tx := w.node.rx.(stop := w.node.rx.stop.(on := false)), w.node.tx;
             w'.node == if tx.repeat == 0 then Node(tx, EndOf(rx, s.now))
                        else Node(tx.(repeat := tx.repeat - 1), EndOf(rx.(waiting := true), s.now))
    ensures Ready(w'.node.tx) && Enabled(w', x)
    ensures Step(w', x) ==
            World(AfterCopy(w.node, s, x, if w.node.tx.repeat <= 1 then 0 else w.node.tx.indexNext), w.active)
  {
    hide Step, LevelAgrees, FrameAgrees, TimersAgree, RepeatsAgree, EndOf, Wrap;
    EndOfCopy(w', x);
    var rx, q := w.node.rx.(stop := w.node.rx.stop.(on := false)), ScheduleQuery(w.node.rx, x.now).query;
    EndOfQuery(rx, q, s.now);
    EndOfQuery(rx.(waiting := true), q, s.now);
  }

  lemma MatchThenStop(w: World, s: Event, x: Event)
    requires CopyEnds(w, s, x)
    ensures Ready(Step(w, x).node.tx) && Enabled(Step(w, x), s)
    ensures Step(Step(w, x), s) ==
            World(AfterCopy(w.node, s, x, if w.node.tx.repeat == 0 then 0 else w.node.tx.indexNext), w.active)
  {
    InvStep(w, x);
    EndOfCopy(w, x);
    var w' := Step(w, x);
    if w'.node.tx.indexNext != 0 {
      StopEffect(w', s);
    } else {
      StopUnclaimed(w', s);
    }
    hide Wrap, EndOf, TimerMatch, OnStopMatch, OnTxMatch;
  }

  lemma StopUnclaimed(w: World, s: Event)
    requires Inv(w) && !w.active && !Listening(w.node.rx.status) && Enabled(w, s) && s.StopMatch?
    requires w.node.tx.indexNext == 0
    ensures Step(w, s).node == Node(w.node.tx, EndOf(w.node.rx.(stop := w.node.rx.stop.(on := false)), s.now))
  {
    hide Wrap, ManageTx, ProcessPendingFrame, QueueFrame, FrameAgrees, TimersAgree, RepeatsAgree;
  }

  /** The settling time `t` starts the next copy, whatever `indexNext` was. */
  lemma NextCopyStarts(n: Node, s: Event, x: Event, indexNext: nat)
    requires s.StopMatch? && x.TxMatch? && n.tx.repeat > 0
    ensures var a := AfterCopy(n, s, x, indexNext);
            && a.rx.period.on && OnPeriodMatch(a) == OnPeriodMatch(a.(tx := a.tx.(indexNext := 0)))
            && OnPeriodMatch(a).tx == StartSend(n.tx.(repeat := n.tx.repeat - 1, isQuery := false))
            && OnPeriodMatch(a).rx.status == IDLE && !OnPeriodMatch(a).rx.waiting
  {
    hide EndOf;
  }

  /** When a copy ends, the stop condition of the receiver and the last match of the transmit timer may come in
      either order. Without repeats left both orders lead to the same idle driver. With repeats left a copy
      waits in both; the orders may differ in whether the transmitter looks idle, but not once the settling
      time has passed: then the next copy starts, and the drivers are the same. */
  lemma EitherOrder(w: World, s: Event, x: Event)
    requires CopyEnds(w, s, x)
    ensures Ready(Step(w, s).node.tx) && Enabled(Step(w, s), x) && Ready(Step(w, x).node.tx) && Enabled(Step(w, x), s)
    ensures var a, b := Step(Step(w, s), x).node, Step(Step(w, x), s).node;
            if w.node.tx.repeat == 0 then a == b && Done(a)
            else
              && a.rx == b.rx && a.rx.waiting && a.rx.period.on && OnPeriodMatch(a) == OnPeriodMatch(b)
              && OnPeriodMatch(a).tx == StartSend(w.node.tx.(repeat := w.node.tx.repeat - 1, isQuery := false))
              && OnPeriodMatch(a).rx.status == IDLE && !OnPeriodMatch(a).rx.waiting
  {
    var n := w.node;
    StopThenMatch(w, s, x);
    MatchThenStop(w, s, x);
    if n.tx.repeat > 0 {
      NextCopyStarts(n, s, x, if n.tx.repeat <= 1 then 0 else n.tx.indexNext);
      NextCopyStarts(n, s, x, n.tx.indexNext);
    }
    hide Step, Inv, Ready, EndOf, OnPeriodMatch;
  }

  // ---- a copy can be lost ----

  /** A world in the run below: what matters of it, for a frame without data bits. */
  ghost predicate Snap(w: World, status: Status, last: Word, indexNext: nat, repeat: Byte, waiting: bool, starts: nat) {
    && Inv(w) && w.node.rx.status == status && w.node.rx.lastEdgeCount == last
    && w.active == (status == START_BIT_START)
    && w.node.tx.indexNext == indexNext && w.node.tx.indexMax == 1 && w.node.tx.repeat == repeat
    && w.node.rx.waiting == waiting && w.node.tx.starts == starts
  }

  lemma SnapStart(w: World, e: Event,
                  status: Status, last: Word, indexNext: nat, repeat: Byte, waiting: bool, starts: nat)
    requires Snap(w, status, last, indexNext, repeat, waiting, starts) && Listening(status) && e.Capture?
    ensures Snap(Step(w, e), START_BIT_START, e.count, indexNext, repeat, waiting, starts)
    ensures Step(w, e).node.tx == w.node.tx
  {
    InvStep(w, e);
    hide Inv, Wrap;
  }

  lemma SnapMid(w: World, e: Event, last: Word, indexNext: nat, repeat: Byte, waiting: bool, starts: nat)
    requires Snap(w, START_BIT_START, last, indexNext, repeat, waiting, starts)
    requires e.Capture? && e.count == last + 393
    ensures Snap(Step(w, e), START_BIT_INSIDE, e.count, indexNext, repeat, waiting, starts)
    ensures Step(w, e).node.tx == w.node.tx && Step(w, e).node.rx.stop.on
  {
    InvStep(w, e);
    assert w.node.rx.lastDataBit;
    hide Inv, ErrorData;
  }

  lemma SnapStop(w: World, e: Event, last: Word, indexNext: nat, repeat: Byte, waiting: bool, starts: nat)
    requires Snap(w, START_BIT_INSIDE, last, indexNext, repeat, waiting, starts) && indexNext != 0 && repeat > 0
    requires e.StopMatch? && Enabled(w, e)
    ensures Snap(Step(w, e), INTER_FRAME_IDLE, last, indexNext, repeat - 1, true, starts)
    ensures Step(w, e).node.tx.timer == w.node.tx.timer
  {
    InvStep(w, e);
    hide Inv, Wrap, ManageTx, ProcessPendingFrame, ReceivedTwice;
  }

  lemma SnapMatch(w: World, e: Event,
                  status: Status, last: Word, indexNext: nat, repeat: Byte, waiting: bool, starts: nat)
    requires Snap(w, status, last, indexNext, repeat, waiting, starts) && e.TxMatch? && w.node.tx.timer.on
    ensures 1 <= indexNext <= 2
    ensures Snap(Step(w, e), status, last, if indexNext == 2 && repeat == 0 then 0 else 2, repeat, waiting, starts)
    ensures Step(w, e).node.tx.timer.on == (indexNext == 1)
    ensures Step(w, e).node.rx.stop == w.node.rx.stop && Step(w, e).node.rx.period == w.node.rx.period
  {
    InvStep(w, e);
    hide FrameAgrees, TimersAgree, LevelAgrees, RepeatsAgree, Wrap;
  }

  lemma SnapPeriod(w: World, e: Event, last: Word, indexNext: nat, repeat: Byte, starts: nat)
    requires Snap(w, INTER_FRAME_IDLE, last, indexNext, repeat, true, starts) && e.PeriodMatch?
    ensures Enabled(w, e)
    ensures Snap(Step(w, e), IDLE, last, 1, repeat, false, starts + 1) && Step(w, e).node.tx.timer.on
  {
    InvStep(w, e);
    hide FrameAgrees, LevelAgrees, RepeatsAgree, Wrap;
  }

  lemma SnapSend(e: Event, repeat: Byte, kind: FrameType)
    requires e.Send? && e.frame == TxFrame(0, 0, repeat, kind) && (kind.Forward? || kind.Query?)
    ensures Snap(Step(BootWorld(false), e), IDLE, 0, 1, repeat, false, 1) && Step(BootWorld(false), e).node.tx.timer.on
  {
    InvBoot(false);
    InvStep(BootWorld(false), e);
    var w := BootWorld(false);
    assert |EncodedDurations(e.frame)| == 2;
    hide Inv, Wrap, EncodedDurations, Overwrite, LastLevel;
  }

  /** The first copy: sent, heard, ended; the second copy waits. */
  lemma FirstCopy() returns (ws: seq<World>, es: seq<Event>)
    ensures Run(ws, es) && |es| == 6 && ws[0] == BootWorld(false)
    ensures es[0] == Send(TxFrame(0, 0, 2, Forward(1)), 80) && NoSend(es, 1, 6)
    ensures Snap(ws[6], INTER_FRAME_IDLE, 493, 2, 1, true, 1)
  {
    hide Step, Ready, LevelAgrees, FrameAgrees, TimersAgree, RepeatsAgree, BootWorld;
    es := [Send(TxFrame(0, 0, 2, Forward(1)), 80), Capture(100, 100, 0), TxMatch(473), Capture(493, 493, 0),
           StopMatch(2893, 2), TxMatch(2899)];
    var w0 := BootWorld(false);
    InvBoot(false);
    SnapSend(es[0], 2, Forward(1));
    var w1 := Step(w0, es[0]);
    SnapStart(w1, es[1], IDLE, 0, 1, 2, false, 1);
    var w2 := Step(w1, es[1]);
    SnapMatch(w2, es[2], START_BIT_START, 100, 1, 2, false, 1);
    var w3 := Step(w2, es[2]);
    SnapMid(w3, es[3], 100, 2, 2, false, 1);
    var w4 := Step(w3, es[3]);
    SnapStop(w4, es[4], 493, 2, 2, false, 1);
    var w5 := Step(w4, es[4]);
    SnapMatch(w5, es[5], INTER_FRAME_IDLE, 493, 2, 1, true, 1);
    var w6 := Step(w5, es[5]);
    ws := [w0, w1, w2, w3, w4, w5, w6];
  }

  /** Another device's frame comes before the second copy, and takes the third copy away. */
  lemma ForeignFrame(w: World) returns (ws: seq<World>, es: seq<Event>)
    requires Snap(w, INTER_FRAME_IDLE, 493, 2, 1, true, 1)
    ensures Run(ws, es) && |es| == 6 && ws[0] == w && NoSend(es, 0, 6)
    ensures Snap(ws[6], IDLE, 5393, 0, 0, false, 2)
  {
    hide Step, Ready, LevelAgrees, FrameAgrees, TimersAgree, RepeatsAgree;
    es := [Capture(5000, 5000, 5), Capture(5393, 5393, 5), StopMatch(7793, 7),
           PeriodMatch(18893), TxMatch(19286), TxMatch(21712)];
    SnapStart(w, es[0], INTER_FRAME_IDLE, 493, 2, 1, true, 1);
    var w1 := Step(w, es[0]);
    SnapMid(w1, es[1], 5000, 2, 1, true, 1);
    var w2 := Step(w1, es[1]);
    SnapStop(w2, es[2], 5393, 2, 1, true, 1);
    var w3 := Step(w2, es[2]);
    SnapPeriod(w3, es[3], 5393, 2, 0, 1);
    var w4 := Step(w3, es[3]);
    SnapMatch(w4, es[4], IDLE, 5393, 1, 0, false, 2);
    var w5 := Step(w4, es[4]);
    SnapMatch(w5, es[5], IDLE, 5393, 2, 0, false, 2);
    var w6 := Step(w5, es[5]);
    ws := [w, w1, w2, w3, w4, w5, w6];
  }

  lemma RunJoins(ws: seq<World>, es: seq<Event>, ws': seq<World>, es': seq<Event>)
    requires Run(ws, es) && Run(ws', es') && ws[|es|] == ws'[0]
    ensures Run(ws + ws'[1..], es + es')
  {
    hide Follows;
    var all, events := ws + ws'[1..], es + es';
    forall k | 0 <= k < |events| ensures FollowsAt(all, events, k) {
      if k < |es| { assert FollowsAt(ws, es, k); } else { assert FollowsAt(ws', es', k - |es|); }
    }
  }

  /** Repeat conservation fails on a shared bus: a frame with repeat 2, sent on a freshly booted driver, is
      transmitted twice instead of three times when another device's frame ends while the second copy waits. */
  lemma CopyCanBeLost() returns (ws: seq<World>, es: seq<Event>)
    ensures OneFrame(ws, es, 0, |es|) && ws[0] == BootWorld(false) && Done(ws[|es|].node)
    ensures es[0].frame.repeat == 2 && ws[|es|].node.tx.starts - ws[0].node.tx.starts == 2
  {
    var ws1, es1 := FirstCopy();
    var ws2, es2 := ForeignFrame(ws1[6]);
    RunJoins(ws1, es1, ws2, es2);
    InvBoot(false);
    ws, es := ws1 + ws2[1..], es1 + es2;
    hide Inv, Follows;
  }
}
