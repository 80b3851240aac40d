/** The main task of main.c sends the next frame when dali_101_tx_is_idle says that no transmission is active or
    pending. This says less than its documentation promises. */
module MainLoop {
  import opened Dali
  import opened TxSpec
  import opened RxSpec
  import opened Runs
  import opened Decoder
  import opened Loopback
  import opened Repeats
  import opened RepeatRuns

  /** dali_101_tx_is_idle */
  predicate ReportsIdle(n: Node) {
    n.tx.indexNext == 0
  }

  /** What its documentation says it reports: no transmission is active, none is pending. */
  predicate NothingToDo(n: Node) {
    !n.tx.timer.on && n.tx.repeat == 0 && !n.rx.waiting
  }

  /** The exact meaning of the report, in every world a run can reach: it is right about the transmission that is
      active, and it is the whole truth unless a frame waits. */
  lemma IdleExact(w: World)
    requires Inv(w) && ReportsIdle(w.node)
    ensures !w.node.tx.timer.on
    ensures NothingToDo(w.node) <==> !w.node.rx.waiting
  {}

  /** A frame sent while another one waits takes its place in the array, and the copies to come are those of the new
      frame alone, with one exact exception: if the settling time of the new frame is over in the inter-frame idle
      time, it starts at once, the mark of the waiting frame stays, and one copy too many is sent. */
  lemma FrameReplaced(w: World, e: Event)
    requires Inv(w) && Enabled(w, e) && e.Send? && e.frame.kind != NoFrame && w.node.rx.waiting
    ensures var n, n' := w.node, Step(w, e).node;
            && n'.tx.count == Load(n.tx, e.frame).count && n'.tx.indexMax == Load(n.tx, e.frame).indexMax
            && Copies(n') == n.tx.starts + e.frame.repeat + 1 +
                 if n.rx.status == INTER_FRAME_IDLE && e.now >= FrameStartCount(n.rx, e.frame.kind) then 1 else 0
  {
    hide Load, FrameAgrees, TimersAgree, LevelAgrees, RepeatsAgree, Wrap, SettlingTime;
  }

  // ---- what the guard of the main task does to repeated frames ----

  /** Frames are sent only while the transmitter is reported idle. */
  ghost predicate Guarded(ws: seq<World>, es: seq<Event>)
    requires |ws| == |es| + 1
  {
    forall k :: 0 <= k < |es| && es[k].Send? ==> ReportsIdle(ws[k].node)
  }

  /** The exact condition for the guard to wait for the whole of a repeated frame. In every run whose frames are sent
      under the guard, at the moment when the next frame is sent, all copies of the frame before it have been
      transmitted (or lost to other receptions) if and only if nothing waits. If something waits, that copy and the
      repeats left are never transmitted: the next frame takes their place. */
  lemma GuardedSend(ws: seq<World>, es: seq<Event>, i: nat, k: nat)
    requires OneFrame(ws, es, i, k) && k < |es| && Guarded(ws, es) && es[k].Send?
    ensures var n := ws[k].node;
            var transmitted, accepted := n.tx.starts - ws[i].node.tx.starts, es[i].frame.repeat + 1;
            && (transmitted + Lost(ws, es, i + 1, k) == accepted <==> !n.rx.waiting)
            && (n.rx.waiting ==> transmitted + Lost(ws, es, i + 1, k) + n.tx.repeat + 1 == accepted)
  {
    FirstStep(ws, es, i, k);
    Conservation(ws, es, i + 1, k);
    hide LevelAgrees, FrameAgrees, TimersAgree, Ready, Step, Lost;
  }

  /** The exact condition for the report to hide a waiting copy. At the end of a copy that the driver has heard as it
      sent it, with repeats left, the next copy waits; idle is reported if and only if the stop condition came before
      the last timer match and one repeat was left. */
  lemma CopyHidden(ws: seq<World>, t: int, stopFirst: bool)
    requires Copy(ws, t, stopFirst) && ws[0].node.tx.repeat > 0
    ensures var end := ws[|ws| - 1].node;
            end.rx.waiting && (ReportsIdle(end) <==> stopFirst && ws[0].node.tx.repeat == 1)
  {
    hide Inv, Spaced, CopyEvents, CopyTimes, FollowsAt, OnTimeAt, EndsReception, OnPeriodMatch;
  }

  /** The events from `from` on are a copy that the driver starts to send at `t`, and hears; nobody else talks. */
  ghost predicate OwnCopy(ws: seq<World>, es: seq<Event>, ts: seq<int>, from: nat, t: int, stopFirst: bool)
    requires |ws| == |es| + 1 == |ts| + 1 && from < |es|
  {
    CopyFirst(ws[from], es[from..], ts[from..], t, stopFirst)
  }

  /** A frame sent to an idle driver, and its first copy. */
  lemma OwnFirstCopy(w: World, frame: TxFrame, t: int, stopFirst: bool)
    returns (ws: seq<World>, es: seq<Event>, ts: seq<int>)
    requires Inv(w) && w.node.rx.status == IDLE && Done(w.node)
    requires frame.length <= MAX_DATA_LENGTH && frame.kind != NoFrame && frame.repeat > 0
    ensures Timed(ws, es, ts) && OneFrame(ws, es, 0, |es|) && ws[0] == w && es[0] == Send(frame, Wrap(t)) && ts[0] == t
    ensures |es| >= 2 && OwnCopy(ws, es, ts, 1, t, stopFirst) && |es| == CopyLength(ws[1]) + 1
    ensures Inv(ws[|es|]) && ws[|es|].node.tx.starts == w.node.tx.starts + 1 && ws[|es|].node.rx.waiting
    ensures ReportsIdle(ws[|es|].node) <==> stopFirst && frame.repeat == 1
    ensures forall k :: 0 <= k < |ts| ==> ts[k] <= ts[|ts| - 1]
  {
    hide Step, Inv, Wrap, Spaced, Timed, CopyEvents, CopyTimes, Copy, CopyFirst, Ended, Load;
    var e := Send(frame, Wrap(t));
    ReadyOf(w);
    SendStarted(w, e);
    var first := Step(w, e);
    var copy := OneCopy(first, t, stopFirst);
    OneStart(w, e);
    CopySpaced(copy, t, stopFirst);
    CopyEnd(copy, t, stopFirst);
    CopyKeepsStarts(copy, t, stopFirst);
    CopyHidden(copy, t, stopFirst);
    hide Started;
    var es', ts' := CopyEvents(first.node.tx, t, stopFirst), CopyTimes(first.node.tx, t, stopFirst);
    NothingSent(first.node.tx, t, stopFirst);
    SendTimed(w, e, t);
    SentAhead(w, e, t, copy, es', ts');
    ws, es, ts := [w] + copy, [e] + es', [t] + ts';
    TimedRun(ws, es, ts);
    assert es[1..] == es' && ts[1..] == ts';
    ContinuesFirst(first, t, stopFirst, es', ts');
  }

  lemma OneStart(w: World, e: Event)
    requires Inv(w) && Enabled(w, e) && e.Send? && e.frame.kind != NoFrame && w.node.rx.status == IDLE
    ensures Step(w, e).node.tx.starts == w.node.tx.starts + 1
  {
    hide Load;
  }

  lemma CopyKeepsStarts(ws: seq<World>, t: int, stopFirst: bool)
    requires Copy(ws, t, stopFirst)
    ensures ws != [] && Inv(ws[|ws| - 1]) && ws[|ws| - 1].node.tx.starts == ws[0].node.tx.starts
    ensures Timed(ws, CopyEvents(ws[0].node.tx, t, stopFirst), CopyTimes(ws[0].node.tx, t, stopFirst))
    ensures forall k :: 0 <= k < |CopyTimes(ws[0].node.tx, t, stopFirst)| ==>
              t <= CopyTimes(ws[0].node.tx, t, stopFirst)[k]
  {
    hide Inv, CopyEvents, CopyTimes, FollowsAt, OnTimeAt, EndsReception, OnPeriodMatch;
  }

  lemma SentAhead(w: World, e: Event, t: int, ws: seq<World>, es: seq<Event>, ts: seq<int>)
    requires Timed(ws, es, ts) && Timed([w, ws[0]], [e], [t]) && forall k :: 0 <= k < |ts| ==> t <= ts[k]
    ensures Timed([w] + ws, [e] + es, [t] + ts)
  {
    hide FollowsAt, OnTimeAt;
    TimedJoins([w, ws[0]], [e], [t], ws, es, ts);
    assert [w, ws[0]] + ws[1..] == [w] + ws;
  }

  lemma SentBehind(ws: seq<World>, es: seq<Event>, ts: seq<int>, e: Event, t: int)
    requires Timed(ws, es, ts) && Inv(ws[|es|]) && Enabled(ws[|es|], e) && e.Send? && e.now == Wrap(t)
    requires forall k :: 0 <= k < |ts| ==> ts[k] <= t
    ensures Ready(ws[|es|].node.tx) && Timed(ws + [Step(ws[|es|], e)], es + [e], ts + [t])
  {
    hide FollowsAt, OnTimeAt, Step, Inv, Wrap;
    ReadyOf(ws[|es|]);
    SendTimed(ws[|es|], e, t);
    var end, next := ws[|es|], Step(ws[|es|], e);
    TimedJoins(ws, es, ts, [end, next], [e], [t]);
    assert [end, next][1..] == [next];
  }

  /** On an unshared bus, under the guard, the second copy of a frame with repeat 1 can be dropped: for every such
      frame sent to an idle driver, and every next frame, there is a run in true time in which the driver hears
      nothing but its own first copy, the stop condition comes before the last timer match, the guard lets the next
      frame through, and that frame takes the place of the copy that waits. */
  lemma SecondCopyDropped(w: World, frame: TxFrame, t: int, next: TxFrame)
    returns (ws: seq<World>, es: seq<Event>, ts: seq<int>)
    requires Inv(w) && w.node.rx.status == IDLE && Done(w.node)
    requires frame.length <= MAX_DATA_LENGTH && frame.kind != NoFrame && frame.repeat == 1
    requires next.length <= MAX_DATA_LENGTH && next.kind != NoFrame
    ensures Timed(ws, es, ts) && |es| >= 2 && ws[0] == w && es[0] == Send(frame, Wrap(t)) && ts[0] == t
    ensures OwnCopy(ws, es, ts, 1, t, true) && |es| == CopyLength(ws[1]) + 2
    ensures var n := |es| - 1;
            && OneFrame(ws, es, 0, n) && Guarded(ws, es) && es[n].Send? && es[n].frame == next
            && ws[n].node.rx.waiting && ws[n].node.tx.starts == w.node.tx.starts + 1 && Ready(ws[n].node.tx)
            && ws[n + 1].node.tx.count == Load(ws[n].node.tx, next).count
            && ws[n + 1].node.tx.indexMax == Load(ws[n].node.tx, next).indexMax
  {
    hide Step, Inv, Wrap, Timed, Load, CopyFirst, Follows;
    var ws', es', ts' := OwnFirstCopy(w, frame, t, true);
    TimedRun(ws', es', ts');
    var n := |es'|;
    var end, e := ws'[n], Send(next, Wrap(ts'[n - 1]));
    SentBehind(ws', es', ts', e, ts'[n - 1]);
    ws, es, ts := ws' + [Step(end, e)], es' + [e], ts' + [ts'[n - 1]];
    SendLoads(end, e);
    TimedRun(ws, es, ts);
    LongerCopy(ws', es', ts', ws, es, ts, t);
  }

  lemma LongerCopy(ws: seq<World>, es: seq<Event>, ts: seq<int>,
                   ws': seq<World>, es': seq<Event>, ts': seq<int>, t: int)
    requires |ws| == |es| + 1 == |ts| + 1 && 1 < |es| && OwnCopy(ws, es, ts, 1, t, true)
    requires |ws'| == |es'| + 1 == |ts'| + 1 && ws <= ws' && es <= es' && ts <= ts'
    ensures OwnCopy(ws', es', ts', 1, t, true)
  {
    hide Started, CopyEvents, CopyTimes;
    assert es[1..] <= es'[1..] && ts[1..] <= ts'[1..];
  }

  /** A fresh driver hears a frame and is given one to send in the inter-frame idle time: the frame waits, and the
      transmitter is reported idle. */
  lemma PendingLooksIdle() returns (ws: seq<World>, es: seq<Event>)
    ensures FromBoot(ws, es) && ReportsIdle(ws[|es|].node) && ws[|es|].node.rx.waiting
    ensures ws[|es|].node.rx.status == INTER_FRAME_IDLE
  {
    hide Step, Inv, BootWorld, Follows;
    es := [Capture(100, 100, 0), Capture(493, 493, 0), StopMatch(2893, 2),
           Send(TxFrame(16, 0xFF00, 0, Forward(1)), 3000)];
    var w0 := BootWorld(false);
    InvBoot(false);
    var w1 := HeardStart(w0, es[0]);
    var w2 := HeardMid(w1, es[1]);
    var w3 := HeardEnd(w2, es[2]);
    var w4 := HeardSend(w3, es[3]);
    ws := [w0, w1, w2, w3, w4];
  }

  lemma HeardStart(w: World, e: Event) returns (next: World)
    requires w == BootWorld(false) && e == Capture(100, 100, 0)
    ensures Inv(w) && Follows(w, e, next) && Inv(next) && Unclaimed(next, START_BIT_START, 100)
  {
    InvBoot(false);
    InvStep(w, e);
    next := Step(w, e);
  }

  /** Nothing has been sent, and the last edge was at `last`. */
  ghost predicate Unclaimed(w: World, status: Status, last: Word) {
    w.node.rx.status == status && w.node.rx.lastEdgeCount == last && w.node.tx.indexNext == 0 && !w.node.rx.waiting
  }

  lemma Half393()
    ensures ValidHalfBit(Corrected(true, Wrap(493 - 100)))
  {}

  lemma HeardMid(w: World, e: Event) returns (next: World)
    requires Inv(w) && Unclaimed(w, START_BIT_START, 100) && e == Capture(493, 493, 0)
    ensures Follows(w, e, next) && Inv(next) && Unclaimed(next, START_BIT_INSIDE, 493) && next.node.rx.stop.on
  {
    hide Step, Wrap, FrameAgrees, TimersAgree, RepeatsAgree;
    InvStep(w, e);
    next := Step(w, e);
    EdgeAtBegin(w, e);
    OwnEdge(w, e);
    StopArmed(w, e);
    Half393();
    hide Corrected, LevelAgrees;
  }

  lemma HeardEnd(w: World, e: Event) returns (next: World)
    requires Inv(w) && Unclaimed(w, START_BIT_INSIDE, 493) && w.node.rx.stop.on && e == StopMatch(2893, 2)
    ensures Follows(w, e, next) && Inv(next) && Unclaimed(next, INTER_FRAME_IDLE, 493)
  {
    InvStep(w, e);
    next := Step(w, e);
    hide Inv, ReceivedTwice, ProcessPendingFrame;
  }

  lemma HeardSend(w: World, e: Event) returns (next: World)
    requires Inv(w) && Unclaimed(w, INTER_FRAME_IDLE, 493) && e == Send(TxFrame(16, 0xFF00, 0, Forward(1)), 3000)
    ensures Follows(w, e, next) && next.node.rx.waiting && next.node.tx.indexNext == 0
    ensures next.node.rx.status == INTER_FRAME_IDLE
  {
    assert FrameStartCount(w.node.rx.(waitingType := Forward(1)), Forward(1)) == 13993;
    hide Load, FrameAgrees, LevelAgrees, RepeatsAgree, TimersAgree, FrameStartCount, Wrap;
    next := Step(w, e);
  }
}
