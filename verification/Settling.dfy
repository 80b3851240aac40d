/** When a waiting frame is released: settling times, their exactness, and what they do for arbitration. */
module Settling {
  import opened Dali
  import opened TxSpec
  import opened RxSpec
  import opened Runs
  import opened Repeats
  import opened WrapInvariance

  /** The multi-master settling times of IEC 62386-101:2022 Table 22 belong to these frames. */
  predicate Prioritised(kind: FrameType) {
    kind.Forward? || kind.Query?
  }

  const TABLE_22 := [13500, 14900, 16300, 17900, 19500]

  /** The settling times in microseconds: those of Table 22 by priority, 5.5 ms for an answer, and the stop condition
      alone for a frame sent back to back. */
  function RequiredTime(kind: FrameType): nat {
    match kind
    case Backward => 5500
    case BackToBack => 2450
    case Forward(p) => TABLE_22[p - 1]
    case Query(p) => TABLE_22[p - 1]
    case Corrupt => 0
    case NoFrame => 0
  }

  lemma TimesRequired(kind: FrameType)
    ensures SettlingTime(kind) == RequiredTime(kind) <= 19500
  {}

  /** The settling time counts from the last edge: always, except for an answer, which counts from the last data
      frame. */
  predicate FromLastEdge(rx: RxState, kind: FrameType) {
    ReferenceCount(rx, kind) == rx.lastEdgeCount
  }

  /** A frame is sent only when none waits, and if it is sent in the inter-frame idle time it meets no wrap. */
  predicate Fair(w: World, e: Event) {
    e.Send? ==>
      && !w.node.rx.waiting
      && (w.node.rx.status == INTER_FRAME_IDLE && e.frame.kind != NoFrame ==>
            OneRound(w.node.rx, e.frame.kind, e.now))
  }

  /** How far the armed count lies behind the count at which a frame of the given kind may start. */
  function Late(rx: RxState, kind: FrameType): Word {
    Wrap(rx.period.count - FrameStartCount(rx, kind))
  }

  /** What the period channel promises: the frame that waits is due at its settling time or at most 100 us later
      (an answer that counts from an earlier edge than the last one, possibly at the end of the idle time only); with
      nothing waiting the channel stands for a frame of the lowest priority. */
  predicate Due(rx: RxState) {
    && (rx.period.on && rx.waiting ==>
          || Late(rx, rx.waitingType) <= 100
          || (!FromLastEdge(rx, rx.waitingType) && Late(rx, Forward(5)) <= 100))
    && (rx.status == INTER_FRAME_IDLE && !rx.waiting ==>
          rx.endInterFrameIdle == rx.period.count && Late(rx, Forward(5)) <= 100)
  }

  lemma SettlingTimes(kind: FrameType)
    requires Prioritised(kind)
    ensures 13500 <= SettlingTime(kind) <= SettlingTime(Forward(5)) == 19500
    ensures SettlingTime(kind) == 19500 || SettlingTime(kind) <= 17900
    ensures SettlingTime(kind) == 19500 <==> PriorityOf(kind) == 5
  {}

  function PriorityOf(kind: FrameType): Priority
    requires Prioritised(kind)
  {
    kind.priority
  }

  /** Arming the period channel after a frame: whatever the counter says, the count is the settling time or up
      to 100 us behind it, and exactly the settling time unless that is less than 100 us away. */
  lemma ScheduledDue(rx: RxState, kind: FrameType, now: Word)
    ensures var r := ScheduleSettling(rx, kind, now);
            && r.period == Match(r.endInterFrameIdle, true)
            && Late(r, kind) <= 100
            && (Wrap(FrameStartCount(rx, kind) - now) >= 100 ==> r.period.count == FrameStartCount(rx, kind))
  {
    SoonLate(FrameStartCount(rx, kind), now);
    hide SettlingTime, Wrap;
  }

  lemma SoonLate(target: Word, now: Word)
    ensures Wrap(target - now) < 100 ==> Wrap(Wrap(now + 100) - target) <= 100
    ensures Wrap(target - target) == 0
  {}

  /** The exact condition for the count to be reached in time. In true time the target is at `target`, and the
      handler reads the counter at `now`. If the target is still ahead, the match comes at the target, or 100 us
      from now if that is later; if it is already past, the match comes only when the counter has gone round. */
  lemma ScheduledInTime(rx: RxState, kind: FrameType, target: int, now: int)
    requires FrameStartCount(rx, kind) == Wrap(target) && target - WORD < now < target + WORD - 100
    ensures var reached := Reached(ScheduleSettling(rx, kind, Wrap(now)).period, now);
            && (now <= target <==> reached == if target < now + 100 then now + 100 else target)
            && (now > target ==> reached == target + WORD)
  {
    AheadOrRound(target, now);
    AheadOrRound(now + 100, now);
    WrapDistance(target, now);
    WrapAdd(now, 100);
    hide Wrap, FrameStartCount;
  }

  lemma WrapDistance(a: int, b: int)
    ensures Wrap(Wrap(a) - Wrap(b)) == Wrap(Wrap(a) - b) == Wrap(a - b)
  {}

  lemma AheadOrRound(target: int, now: int)
    requires -WORD < now - target < WORD
    ensures Wrap(Wrap(target) - now) == if now <= target then target - now else target - now + WORD
  {
    WrapDistance(target, now);
  }

  /** A match that is set close before its count could be missed by the timer. The period channel is set by stop
      conditions and calls only, and always at least 100 us ahead of the counter. */
  lemma ArmedAhead(w: World, e: Event)
    requires Inv(w) && Enabled(w, e)
    ensures var r, r' := w.node.rx.period, Step(w, e).node.rx.period;
            r'.on && r' != r ==> (e.StopMatch? || e.Send?) && Wrap(r'.count - e.now) >= 100
  {
    match e
    case Capture(_, _, _) =>
      NotArmed(w, e);
      hide Step, Inv;
    case StopMatch(_, _) => AheadAtStop(w, e);
    case Send(frame, now) =>
      if frame.kind != NoFrame {
        hide Load, FrameAgrees, LevelAgrees, RepeatsAgree, TimersAgree;
        AheadAtSend(w.node.(tx := Load(w.node.tx, frame)), frame.kind, now);
        hide ScheduleTransmission;
      }
    case _ =>
      hide Wrap, TimerMatch, SettlingTime, FrameAgrees, LevelAgrees, RepeatsAgree;
  }

  lemma Soon(target: Word, now: Word)
    ensures Wrap(Wrap(now + 100) - now) == 100
    ensures target - now >= 100 ==> Wrap(target - now) >= 100
  {}

  lemma AheadAtSend(n: Node, kind: FrameType, now: Word)
    ensures var r' := ScheduleTransmission(n, kind, now).rx.period;
            r' != n.rx.period ==> Wrap(r'.count - now) >= 100
  {
    Soon(FrameStartCount(n.rx.(waitingType := kind), kind), now);
    hide Wrap, FrameStartCount;
  }

  lemma AheadAtStop(w: World, e: Event)
    requires Inv(w) && Enabled(w, e) && e.StopMatch?
    ensures var r, r' := w.node.rx.period, Step(w, e).node.rx.period;
            r' != r ==> Wrap(r'.count - e.now) >= 100
  {
    hide Wrap, SettlingTime, ManageTx, ErrorData, ReceivedTwice, FrameAgrees, RepeatsAgree, ProcessPendingFrame;
    if !w.active && !Listening(w.node.rx.status) {
      var managed := ManageTx(w.node.(rx := w.node.rx.(stop := w.node.rx.stop.(on := false))), e.now).rx;
      AheadAtEnd(QueueFrame(managed), e.now);
      AheadAtEnd(Reset(managed), e.now);
    }
  }

  lemma AheadAtEnd(rx: RxState, now: Word)
    ensures Wrap(ProcessPendingFrame(rx, now).period.count - now) >= 100
  {
    Soon(0, now);
    hide Wrap, FrameStartCount;
  }

  /** A back-to-back frame whose stop condition is handled 51 us late is put off until the counter has gone
      round: 71 minutes. */
  lemma BackToBackMissed(rx: RxState)
    requires rx.lastEdgeCount == 1000
    ensures Reached(ScheduleSettling(rx, BackToBack, 1000 + MIN_STOP + 51).period, 1000 + MIN_STOP + 51) ==
            1000 + MIN_STOP + 51 + WORD - 1
  {}

  /** A corrupt frame has no settling time: if it waits through a reception that ends on an idle line, its match is
      always missed, and comes when the counter has gone round since the last edge. */
  lemma CorruptMissed(rx: RxState, last: int, now: int)
    requires rx.lastEdgeCount == Wrap(last) && last + MIN_STOP <= now < last + WORD - 100
    ensures Reached(ScheduleSettling(rx, Corrupt, Wrap(now)).period, now) == last + WORD
  {
    ScheduledInTime(rx, Corrupt, last, now);
    hide Wrap, ScheduleSettling;
  }

  lemma PendingDue(rx: RxState, now: Word)
    ensures Due(ProcessPendingFrame(rx, now))
  {
    ScheduledDue(rx, if rx.waiting then rx.waitingType else Forward(5), now);
    hide Wrap, SettlingTime, FrameStartCount;
  }

  /** A frame sent while none waits: it starts only if its settling time is over, and otherwise is due in time. */
  lemma SendDue(n: Node, kind: FrameType, now: Word)
    requires Due(n.rx) && !n.rx.waiting
    requires n.rx.period.on ==> Listening(n.rx.status)
    requires n.rx.status == INTER_FRAME_IDLE ==> OneRound(n.rx, kind, now)
    ensures Due(ScheduleTransmission(n, kind, now).rx)
    ensures var started := ScheduleTransmission(n, kind, now).tx.starts > n.tx.starts;
            n.rx.status == INTER_FRAME_IDLE && started ==>
              Wrap(now - ReferenceCount(n.rx, kind)) >= SettlingTime(kind)
  {
    hide SettlingTime, OneRound, Wrap;
    if n.rx.status == INTER_FRAME_IDLE {
      hide ScheduleTransmission;
      DecidedBy(n, kind, now);
      Compared(n.rx, kind, now);
      if now < FrameStartCount(n.rx, kind) { AppointmentDue(n.rx, kind, now); }
    }
  }

  /** Whichever count the period channel is left with, it is one that suits the frame. */
  lemma AppointmentDue(rx: RxState, kind: FrameType, now: Word)
    requires Due(rx) && !rx.waiting && rx.status == INTER_FRAME_IDLE && OneRound(rx, kind, now)
    requires now < FrameStartCount(rx, kind)
    ensures var start := FrameStartCount(rx, kind);
            if start < rx.endInterFrameIdle then
              Wrap((if start - now < 100 then Wrap(now + 100) else start) - start) <= 100
            else Late(rx, Forward(5)) <= 100 && (FromLastEdge(rx, kind) ==> Late(rx, kind) <= 100)
  {
    var start := FrameStartCount(rx, kind);
    TimesRequired(kind);
    Compared(rx, kind, now);
    if FromLastEdge(rx, kind) { LateBehind(rx, kind); }
    SoonLate(start, now);
    WrapSmall(start - now);
    hide Wrap, SettlingTime, FrameStartCount, OneRound;
  }

  /** How late an appointment for the lowest priority is for another one. */
  lemma LateBehind(rx: RxState, kind: FrameType)
    requires FromLastEdge(rx, kind) && Late(rx, Forward(5)) <= 100
    ensures Wrap(rx.period.count - rx.lastEdgeCount) == SettlingTime(Forward(5)) + Late(rx, Forward(5))
    ensures Late(rx, kind) == SettlingTime(Forward(5)) + Late(rx, Forward(5)) - SettlingTime(kind)
  {
    TimesRequired(kind);
    Behind(rx.period.count, rx.lastEdgeCount, SettlingTime(Forward(5)));
    Behind(rx.period.count, rx.lastEdgeCount, SettlingTime(kind));
    hide Wrap, SettlingTime;
  }

  lemma Behind(count: Word, from: Word, a: nat)
    requires a <= 20000
    ensures var late, x := Wrap(count - Wrap(from + a)), Wrap(count - from);
            late == if x >= a then x - a else x - a + WORD
  {}

  lemma DueStep(w: World, e: Event)
    requires Inv(w) && Enabled(w, e) && Due(w.node.rx) && Fair(w, e)
    ensures Due(Step(w, e).node.rx)
  {
    match e
    case Capture(_, _, _) => DueCapture(w, e);
    case StopMatch(_, _) => DueStop(w, e);
    case Send(frame, now) =>
      if frame.kind != NoFrame {
        hide Due, ScheduleTransmission, Load, FrameAgrees, LevelAgrees, RepeatsAgree, OneRound;
        SendDue(w.node.(tx := Load(w.node.tx, frame)), frame.kind, now);
      }
    case _ =>
      hide Wrap, TimerMatch, SettlingTime, FrameAgrees, LevelAgrees, RepeatsAgree;
  }

  lemma DueCapture(w: World, e: Event)
    requires Inv(w) && e.Capture?
    ensures Due(Step(w, e).node.rx)
  {
    NotArmed(w, e);
    hide Step, Inv, Late;
  }

  /** After an edge the period channel is off. */
  lemma NotArmed(w: World, e: Event)
    requires Inv(w) && e.Capture?
    ensures !Step(w, e).node.rx.period.on && Step(w, e).node.rx.status != INTER_FRAME_IDLE
  {
    hide Wrap, ErrorData, CorrectedDifference, ManageTx, ShiftIn, FrameAgrees, RepeatsAgree;
  }

  lemma DueStop(w: World, e: Event)
    requires Inv(w) && Enabled(w, e) && e.StopMatch? && Due(w.node.rx)
    ensures Due(Step(w, e).node.rx)
  {
    hide Wrap, SettlingTime, ManageTx, ErrorData, ReceivedTwice, FrameAgrees, RepeatsAgree, ProcessPendingFrame;
    if !w.active && !Listening(w.node.rx.status) {
      var managed := ManageTx(w.node.(rx := w.node.rx.(stop := w.node.rx.stop.(on := false))), e.now).rx;
      PendingDue(QueueFrame(managed), e.now);
      PendingDue(Reset(managed), e.now);
    }
  }

  /** Every event of the run is fair. */
  ghost predicate FairRun(ws: seq<World>, es: seq<Event>) {
    FromBoot(ws, es) && forall k :: 0 <= k < |es| ==> FairAt(ws, es, k)
  }

  ghost predicate FairAt(ws: seq<World>, es: seq<Event>, k: nat)
    requires k < |es| == |ws| - 1
  {
    Fair(ws[k], es[k])
  }

  lemma BootDue()
    ensures Due(BootWorld(false).node.rx) && Due(BootWorld(true).node.rx)
  {}

  lemma {:induction false} DueAlong(ws: seq<World>, es: seq<Event>, k: nat)
    requires FairRun(ws, es) && k < |ws|
    ensures Due(ws[k].node.rx) && Inv(ws[k])
  {
    hide Inv, Step, Due, BootWorld, Fair;
    InvFromBoot(ws, es, k);
    if k == 0 {
      BootDue();
    } else {
      DueAlong(ws, es, k - 1);
      assert FollowsAt(ws, es, k - 1) && FairAt(ws, es, k - 1);
      DueStep(ws[k - 1], es[k - 1]);
    }
  }

  /** A frame that waits is released by the period match at event `k`; event `c` captured the last edge. */
  ghost predicate Released(ws: seq<World>, es: seq<Event>, ts: seq<int>, k: nat, c: nat) {
    && Timed(ws, es, ts) && FairRun(ws, es) && c < k < |es|
    && es[k].PeriodMatch? && ws[k].node.rx.waiting && IsLastEdge(ws, es, k, c)
  }

  /** Settling time is respected, and lateness bounded. In every run in which frames are sent only when none
      waits and meet no wrap, a transmission is started by one of three events: a frame sent to an idle bus; a
      frame sent in the inter-frame idle time, and then at least its settling time has passed since the last edge `c`;
      or the period match for a waiting frame, and then exactly its settling time has passed or up to 100 us more,
      unless the counter has gone round since the edge. All of it is true time. (An answer may count from an earlier
      edge: see `FrameSettled`.) */
  lemma SettlingRespected(ws: seq<World>, es: seq<Event>, ts: seq<int>, k: nat) returns (c: int)
    requires Timed(ws, es, ts) && FairRun(ws, es) && k < |es|
    requires ws[k].node.tx.starts < ws[k + 1].node.tx.starts
    ensures var rx, e := ws[k].node.rx, es[k];
            && (e.PeriodMatch? || (e.Send? && Listening(rx.status)))
            && (e.Send? && rx.status == INTER_FRAME_IDLE ==>
                  && 0 <= c < k && IsLastEdge(ws, es, k, c)
                  && (FromLastEdge(rx, e.frame.kind) ==> ts[k] - ts[c] >= RequiredTime(e.frame.kind)))
            && (e.PeriodMatch? ==>
                  && 0 <= c < k && Released(ws, es, ts, k, c)
                  && (FromLastEdge(rx, rx.waitingType) ==> InTime(ts[k] - ts[c], RequiredTime(rx.waitingType))))
  {
    hide Step, Inv, SettlingTime, Fair, Due, IsLastEdge, Quiet, Wrap;
    DueAlong(ws, es, k);
    assert FollowsAt(ws, es, k) && FairAt(ws, es, k);
    StartedBy(ws[k], es[k]);
    c := EdgeBefore(ws, es, k);
    if c == -1 {
      NotQuiet(ws[k], es[k]);
    } else if es[k].PeriodMatch? {
      if FromLastEdge(ws[k].node.rx, ws[k].node.rx.waitingType) { ReleaseTime(ws, es, ts, k, c); }
    } else {
      TimesRequired(es[k].frame.kind);
      SendTime(ws, es, ts, k, c);
    }
  }

  /** The settling time, or at most 100 us more unless the counter has gone round. */
  predicate InTime(elapsed: int, settling: int) {
    elapsed >= settling && (elapsed < WORD ==> elapsed <= settling + 100)
  }

  lemma NotQuiet(w: World, e: Event)
    requires Quiet(w.node.rx) && Enabled(w, e)
    ensures !e.PeriodMatch? && w.node.rx.status != INTER_FRAME_IDLE
  {}

  lemma ReleaseTime(ws: seq<World>, es: seq<Event>, ts: seq<int>, k: nat, c: nat)
    requires Released(ws, es, ts, k, c) && FromLastEdge(ws[k].node.rx, ws[k].node.rx.waitingType)
    ensures InTime(ts[k] - ts[c], RequiredTime(ws[k].node.rx.waitingType))
  {
    hide Step, Inv, Fair, SettlingTime, Wrap;
    DueAlong(ws, es, k);
    assert FollowsAt(ws, es, k) && OnTimeAt(ws, es, ts, k) && OnTimeAt(ws, es, ts, c);
    TimesRequired(ws[k].node.rx.waitingType);
    TrueLate(ts[c], ts[k], SettlingTime(ws[k].node.rx.waitingType));
  }

  lemma TrueLate(last: int, t: int, settling: nat)
    requires last <= t && settling < WORD - 200 && Wrap(Wrap(t) - Wrap(Wrap(last) + settling)) <= 100
    ensures InTime(t - last, settling)
  {
    WrapAdd(last, settling);
    WrapDistance(t, last + settling);
  }

  lemma SendTime(ws: seq<World>, es: seq<Event>, ts: seq<int>, k: nat, c: nat)
    requires Timed(ws, es, ts) && c < k < |es| && es[k].Send? && IsLastEdge(ws, es, k, c)
    ensures ts[k] - ts[c] >= Wrap(es[k].now - ws[k].node.rx.lastEdgeCount)
  {
    assert OnTimeAt(ws, es, ts, k) && OnTimeAt(ws, es, ts, c);
    WrapDistance(ts[k], ts[c]);
    AtMost(ts[k] - ts[c]);
    hide Wrap, Step;
  }

  lemma AtMost(x: nat)
    ensures Wrap(x) <= x
  {}

  lemma StartedBy(w: World, e: Event)
    requires Inv(w) && Enabled(w, e) && Due(w.node.rx) && Fair(w, e)
    requires w.node.tx.starts < Step(w, e).node.tx.starts
    ensures e.Send? || e.PeriodMatch?
    ensures e.Send? ==> Listening(w.node.rx.status)
    ensures e.Send? && w.node.rx.status == INTER_FRAME_IDLE ==>
              Wrap(e.now - ReferenceCount(w.node.rx, e.frame.kind)) >= SettlingTime(e.frame.kind)
    ensures e.PeriodMatch? ==> w.node.rx.waiting && w.node.rx.period.on
  {
    if e.Send? {
      SendStarts(w, e);
    } else {
      CopyStep(w, e);
      hide SettlingTime, FrameAgrees, LevelAgrees, RepeatsAgree, TimersAgree;
    }
  }

  lemma SendStarts(w: World, e: Event)
    requires Inv(w) && Enabled(w, e) && Due(w.node.rx) && Fair(w, e) && e.Send?
    requires w.node.tx.starts < Step(w, e).node.tx.starts
    ensures Listening(w.node.rx.status)
    ensures w.node.rx.status == INTER_FRAME_IDLE ==>
              Wrap(e.now - ReferenceCount(w.node.rx, e.frame.kind)) >= SettlingTime(e.frame.kind)
  {
    SendDue(w.node.(tx := Load(w.node.tx, e.frame)), e.frame.kind, e.now);
    hide SettlingTime, Load, Due, FrameAgrees, LevelAgrees, RepeatsAgree, Wrap, OneRound;
  }

  /** Nothing but an edge, another frame to send, or the match itself takes a waiting frame's appointment away:
      until one of them comes the period channel stays armed at the same count, and the frame waits. */
  lemma {:induction false} AppointmentKept(ws: seq<World>, es: seq<Event>, i: nat, k: nat)
    requires Run(ws, es) && i <= k <= |es| && Inv(ws[i])
    requires Listening(ws[i].node.rx.status) && ws[i].node.rx.waiting && ws[i].node.rx.period.on
    requires forall m :: i <= m < k ==> !es[m].Capture? && !es[m].PeriodMatch? && !es[m].Send?
    ensures Inv(ws[k]) && Listening(ws[k].node.rx.status) && ws[k].node.rx.waiting
    ensures ws[k].node.rx.period == ws[i].node.rx.period && ws[k].node.rx.waitingType == ws[i].node.rx.waitingType
    ensures ws[k].node.rx.lastEdgeCount == ws[i].node.rx.lastEdgeCount && ws[k].node.tx.starts == ws[i].node.tx.starts
  {
    if i < k {
      hide Inv, Step;
      AppointmentKept(ws, es, i, k - 1);
      assert FollowsAt(ws, es, k - 1);
      InvStep(ws[k - 1], es[k - 1]);
      AppointmentStep(ws[k - 1], es[k - 1]);
    }
  }

  lemma AppointmentStep(w: World, e: Event)
    requires Inv(w) && Enabled(w, e) && Listening(w.node.rx.status)
    requires e.StopMatch? || e.QueryMatch? || e.TxMatch?
    ensures var rx, rx' := w.node.rx, Step(w, e).node.rx;
            && Listening(rx'.status) && rx'.waiting == rx.waiting && rx'.period == rx.period
            && rx'.waitingType == rx.waitingType && rx'.lastEdgeCount == rx.lastEdgeCount
            && Step(w, e).node.tx.starts == w.node.tx.starts
  {
    hide Wrap, ManageTx, FrameAgrees, TimersAgree, RepeatsAgree;
  }

  /** The frame waits from event `a` on: that event made the appointment, in true time not later than the frame's
      settling time since the last edge `c`, and until event `k` there is no edge, no other frame and no match. */
  ghost predicate Appointed(ws: seq<World>, es: seq<Event>, ts: seq<int>, a: nat, k: nat, c: nat) {
    && Punctual(ws, es, ts) && FairRun(ws, es) && c < a + 1 <= k < |es|
    && !es[a].PeriodMatch? && IsLastEdge(ws, es, a + 1, c)
    && (var rx := ws[a + 1].node.rx;
        && Listening(rx.status) && rx.waiting && rx.period.on && FromLastEdge(rx, rx.waitingType)
        && Handled(es[a], ts[a]) <= ts[c] + RequiredTime(rx.waitingType))
    && (forall m :: a < m < k ==> !es[m].Capture? && !es[m].PeriodMatch? && !es[m].Send?)
  }

  /** The lateness bound without the exception. If no match interrupt is missed, a frame whose appointment was made
      before its settling time was over starts at most 100 us after it: no event comes later than that until the
      period match has come, and the period match starts the frame. */
  lemma {:induction false} StartsInTime(ws: seq<World>, es: seq<Event>, ts: seq<int>, a: nat, k: nat, c: nat)
    requires Appointed(ws, es, ts, a, k, c)
    ensures var rx := ws[a + 1].node.rx;
            && ts[k] - ts[c] <= RequiredTime(rx.waitingType) + Late(rx, rx.waitingType) <=
                 RequiredTime(rx.waitingType) + 100
            && (es[k].PeriodMatch? ==>
                  && ws[k + 1].node.tx == StartSend(ws[k].node.tx)
                  && ts[k] - ts[c] >= RequiredTime(rx.waitingType))
  {
    hide Inv, Step, Fair, SettlingTime, Wrap, FrameStartCount;
    var rx := ws[a + 1].node.rx;
    var kind := rx.waitingType;
    DueAlong(ws, es, a + 1);
    assert PunctualAt(ws, es, ts, k) && OnTimeAt(ws, es, ts, c);
    TimesRequired(kind);
    AppointmentKept(ws, es, a + 1, k);
    StartCountOf(rx, kind);
    var due := ts[c] + SettlingTime(kind) + Late(rx, kind);
    CountOfDue(ts[c], SettlingTime(kind), rx.period.count);
    if a + 1 < k {
      AppointmentKept(ws, es, a + 1, k - 1);
      StartsInTime(ws, es, ts, a, k - 1, c);
      AheadOrRound(due, ts[k - 1]);
    } else {
      AheadOrRound(due, ts[a]);
      AheadOrRound(due, Handled(es[a], ts[a]));
    }
    if es[k].PeriodMatch? {
      assert FollowsAt(ws, es, k) && OnTimeAt(ws, es, ts, k);
      MatchStarts(ws[k], es[k]);
      TrueLate(ts[c], ts[k], SettlingTime(kind));
    }
  }

  lemma StartCountOf(rx: RxState, kind: FrameType)
    requires FromLastEdge(rx, kind)
    ensures FrameStartCount(rx, kind) == Wrap(rx.lastEdgeCount + SettlingTime(kind))
  {}

  lemma CountOfDue(last: int, settling: nat, count: Word)
    ensures count == Wrap(last + settling + Wrap(count - Wrap(Wrap(last) + settling)))
  {
    WrapAdd(last, settling);
  }

  // ---- without the assumption on the counter ----

  /** The exact condition for the first comparison. `last` and `now` are true times, the counter holds them modulo
      2^32. A frame sent in the inter-frame idle time starts at once if and only if its settling time is over,
      provided that no wrap of the counter lies between the two; if one does, the decision is wrong, one way or the
      other. */
  lemma StartDecision(n: Node, kind: FrameType, last: nat, now: nat)
    requires n.rx.status == INTER_FRAME_IDLE
    requires ReferenceCount(n.rx, kind) == Wrap(last) && last <= now < last + WORD - 20000
    ensures var due := last + RequiredTime(kind);
            var starts := ScheduleTransmission(n, kind, Wrap(now)).tx.starts == n.tx.starts + 1;
            (starts <==> now >= due) <==> now / WORD == due / WORD
  {
    TimesRequired(kind);
    var due := last + SettlingTime(kind);
    WrapAdd(last, SettlingTime(kind));
    WrapOrder(now, due);
    DecidedBy(n, kind, Wrap(now));
    hide Wrap, SettlingTime, ScheduleTransmission;
  }

  lemma WrapOrder(a: nat, b: nat)
    requires -WORD < a - b < WORD
    ensures (Wrap(a) >= Wrap(b) <==> a >= b) <==> a / WORD == b / WORD
  {
    var x, y := a / WORD, b / WORD;
    assert a == x * WORD + Wrap(a) && b == y * WORD + Wrap(b);
  }

  /** The frame gets what it should: it starts at once if its settling time is over, and otherwise waits for a period
      match at its settling time or at most 100 us later. */
  predicate Right(n: Node, n': Node, due: int, now: int) {
    if now >= due then n'.tx == StartSend(n.tx)
    else n'.tx == n.tx && n'.rx.waiting && n'.rx.period.on && Wrap(n'.rx.period.count - due) <= 100
  }

  /** The exact condition for both comparisons. In true time a frame is sent at `now`, in the inter-frame idle time
      after an edge at `last`, with nothing waiting and the period channel set for the lowest priority at `end`. It
      gets what it should if and only if no wrap of the counter lies between `now` and the end of its settling time,
      nor, for a frame that has to wait and has not the lowest priority, between that and `end`. */
  lemma SendDecision(n: Node, kind: FrameType, last: nat, now: nat, end: nat)
    requires n.rx.status == INTER_FRAME_IDLE && Prioritised(kind)
    requires n.rx.lastEdgeCount == Wrap(last) && last <= now < last + WORD - 20000
    requires n.rx.period == Match(Wrap(end), true) && n.rx.endInterFrameIdle == Wrap(end)
    requires last + RequiredTime(Forward(5)) <= end <= last + RequiredTime(Forward(5)) + 100
    ensures var due := last + RequiredTime(kind);
            Right(n, ScheduleTransmission(n, kind, Wrap(now)), due, now) <==>
            && now / WORD == due / WORD
            && (now < due && PriorityOf(kind) < 5 ==> due / WORD == end / WORD)
  {
    var due, n' := last + SettlingTime(kind), ScheduleTransmission(n, kind, Wrap(now));
    SettlingTimes(kind);
    TimesRequired(kind);
    TimesRequired(Forward(5));
    WrapAdd(last, SettlingTime(kind));
    WrapOrder(now, due);
    DecidedBy(n, kind, Wrap(now));
    if now < due && now / WORD == due / WORD {
      AppointmentDecision(n, kind, due, now, end);
    } else {
      assert n'.tx == StartSend(n.tx) <==> Wrap(now) >= Wrap(due);
    }
    hide Wrap, SettlingTime, ScheduleTransmission;
  }

  lemma AppointmentDecision(n: Node, kind: FrameType, due: nat, now: nat, end: nat)
    requires n.rx.status == INTER_FRAME_IDLE && n.rx.period == Match(Wrap(end), true)
    requires n.rx.endInterFrameIdle == Wrap(end) && FrameStartCount(n.rx, kind) == Wrap(due)
    requires now < due <= end < due + 10000 && now / WORD == due / WORD
    ensures var n' := ScheduleTransmission(n, kind, Wrap(now));
            Right(n, n', due, now) <==> end <= due + 100 || due / WORD == end / WORD
  {
    DueBefore(now, due, end);
    DecidedBy(n, kind, Wrap(now));
    hide Wrap, FrameStartCount, ScheduleTransmission;
  }

  /** What the period channel can be set to, measured from the end of the settling time. */
  lemma DueBefore(now: nat, due: nat, end: nat)
    requires now < due <= end < due + WORD - 30000 && now / WORD == due / WORD
    ensures Wrap(due) - Wrap(now) == due - now
    ensures Wrap(Wrap(end) - due) == end - due
    ensures Wrap(Wrap(due) - due) == 0
    ensures due - now < 100 ==> Wrap(Wrap(Wrap(now) + 100) - due) == now + 100 - due
    ensures end > due ==> (Wrap(due) < Wrap(end) <==> due / WORD == end / WORD)
    ensures end == due ==> Wrap(end) == Wrap(due)
  {
    WrapOrder(end, due);
    WrapOrder(due, end);
    WrapAdd(now, 100);
    WrapDistance(end, due);
    WrapDistance(due, due);
    WrapDistance(now + 100, due);
    var x := due / WORD;
    assert due == x * WORD + Wrap(due) && now == x * WORD + Wrap(now);
  }

  /** A frame of priority 1 sent 3 ms after the last edge starts at once, 10.5 ms too early, if the counter is
      about to wrap. */
  lemma EarlyStart(n: Node)
    requires n.rx.status == INTER_FRAME_IDLE && n.rx.lastEdgeCount == WORD - 5000
    ensures ScheduleTransmission(n, Forward(1), WORD - 2000).tx == StartSend(n.tx)
  {}

  /** A frame of priority 1 sent 3 ms after the last edge waits for 19.5 ms instead of 13.5 ms after it, although
      its settling time ends before the counter wraps: the end of the inter-frame idle time lies behind the wrap. */
  lemma LateStart(n: Node)
    requires n.rx.status == INTER_FRAME_IDLE && n.rx.lastEdgeCount == WORD - 15000
    requires n.rx.endInterFrameIdle == 4500 && n.rx.period == Match(4500, true)
    ensures var n' := ScheduleTransmission(n, Forward(1), WORD - 12000);
            n'.tx == n.tx && n'.rx.waiting && n'.rx.period == n.rx.period &&
            Wrap(n'.rx.period.count - n.rx.lastEdgeCount) == 19500
  {}

  // ---- from the frame sent ----

  /** What waits is of the type of the frame that was sent. */
  lemma {:induction false} WaitingType(ws: seq<World>, es: seq<Event>, i: nat, k: nat)
    requires OneFrame(ws, es, i, k)
    ensures Inv(ws[k]) && ws[k].node.rx.waitingType == es[i].frame.kind
  {
    hide Step, Inv;
    InvAlong(ws, es, i, k - 1);
    InvAlong(ws, es, i, k);
    assert FollowsAt(ws, es, k - 1);
    if k == i + 1 {
      TypeTaken(ws[i], es[i]);
    } else {
      WaitingType(ws, es, i, k - 1);
      CopyStep(ws[k - 1], es[k - 1]);
    }
  }

  lemma TypeTaken(w: World, e: Event)
    requires Ready(w.node.tx) && Enabled(w, e) && e.Send? && e.frame.kind != NoFrame
    ensures Step(w, e).node.rx.waitingType == e.frame.kind
  {
    hide Load, Wrap, FrameStartCount;
  }

  /** A reception ends with a data frame. */
  predicate EndsFrame(w: World, e: Event) {
    e.StopMatch? && !w.active && InBit(w.node.rx.status)
  }

  lemma FullRecorded(w: World, e: Event)
    requires Inv(w) && Enabled(w, e) && EndsFrame(w, e)
    ensures Step(w, e).node.rx.lastFullFrameCount == w.node.rx.lastEdgeCount
  {
    hide Wrap, ReceivedTwice, ManageTx, ProcessPendingFrame, FrameAgrees, TimersAgree, RepeatsAgree;
  }

  lemma FullKept(w: World, e: Event)
    requires Inv(w) && Enabled(w, e) && !EndsFrame(w, e)
    ensures Step(w, e).node.rx.lastFullFrameCount == w.node.rx.lastFullFrameCount
  {
    if e.Capture? {
      if InBit(w.node.rx.status) { FullKeptInBit(w, e); } else { FullKeptCapture(w, e); }
    } else if e.StopMatch? {
      FullKeptStop(w, e);
    } else {
      hide Wrap, Load, TimerMatch, LevelAgrees, FrameAgrees, RepeatsAgree;
    }
  }

  lemma FullKeptCapture(w: World, e: Event)
    requires Inv(w) && e.Capture? && !InBit(w.node.rx.status)
    ensures Step(w, e).node.rx.lastFullFrameCount == w.node.rx.lastFullFrameCount
  {
    hide Wrap, ErrorData, CorrectedDifference, ShiftIn, ManageTx, CheckStartTiming, InsideBit;
    hide FrameAgrees, TimersAgree, LevelAgrees, RepeatsAgree;
  }

  lemma FullKeptStop(w: World, e: Event)
    requires Inv(w) && Enabled(w, e) && e.StopMatch? && !EndsFrame(w, e)
    ensures Step(w, e).node.rx.lastFullFrameCount == w.node.rx.lastFullFrameCount
  {
    hide Wrap, ErrorData, ManageTx, ProcessPendingFrame, FrameAgrees, TimersAgree, RepeatsAgree;
  }

  lemma FullKeptInBit(w: World, e: Event)
    requires Inv(w) && e.Capture? && InBit(w.node.rx.status)
    ensures Step(w, e).node.rx.lastFullFrameCount == w.node.rx.lastFullFrameCount
  {
    hide Wrap, ErrorData, CorrectedDifference, CheckStartTiming, InsideBit, ShiftIn, StartReception, Recover;
    hide FrameAgrees, TimersAgree, LevelAgrees, RepeatsAgree;
    var rx := CaptureIsr(w.node.rx, e.count);
    if rx.status == START_BIT_START || rx.status == DATA_BIT_START {
      BeginBit(rx, if rx.status == START_BIT_START then START_BIT_INSIDE else DATA_BIT_INSIDE, e.tick);
    } else {
      InsideBitCases(rx, e.tick);
    }
  }

  /** Event `s` ended the last data frame before `k`, and event `c` captured the last edge of that frame. */
  ghost predicate IsLastFull(ws: seq<World>, es: seq<Event>, k: nat, s: nat, c: nat)
    requires c < s < k <= |es| == |ws| - 1
  {
    && EndsFrame(ws[s], es[s]) && IsLastEdge(ws, es, s, c)
    && ws[k].node.rx.lastFullFrameCount == es[c].count
    && forall m :: s < m < k ==> !EndsFrame(ws[m], es[m])
  }

  /** What `last_full_frame_count` holds, over every run: the last edge of the last data frame; 0 (and -1 here) if
      there was none. */
  lemma {:induction false} FullFrameBefore(ws: seq<World>, es: seq<Event>, k: nat) returns (s: int, c: int)
    requires FromBoot(ws, es) && k < |ws|
    ensures s == -1 ==> c == -1 && ws[k].node.rx.lastFullFrameCount == 0
    ensures s == -1 ==> forall m :: 0 <= m < k ==> !EndsFrame(ws[m], es[m])
    ensures s != -1 ==> 0 <= c < s < k && IsLastFull(ws, es, k, s, c)
  {
    hide Inv, Step, BootWorld, IsLastEdge, Quiet, EndsFrame;
    if k == 0 {
      s, c := -1, -1;
      BootFull(ws);
    } else {
      InvFromBoot(ws, es, k - 1);
      assert FollowsAt(ws, es, k - 1);
      if EndsFrame(ws[k - 1], es[k - 1]) {
        FullRecorded(ws[k - 1], es[k - 1]);
        s := k - 1;
        c := EdgeBefore(ws, es, k - 1);
        FrameHasEdge(ws[k - 1], es[k - 1]);
        EdgeCount(ws, es, k - 1, c);
      } else {
        FullKept(ws[k - 1], es[k - 1]);
        s, c := FullFrameBefore(ws, es, k - 1);
      }
    }
  }

  lemma BootFull(ws: seq<World>)
    requires ws != [] && exists active :: ws[0] == BootWorld(active)
    ensures ws[0].node.rx.lastFullFrameCount == 0
  {}

  lemma FrameHasEdge(w: World, e: Event)
    requires EndsFrame(w, e) && Enabled(w, e)
    ensures !Quiet(w.node.rx)
  {}

  lemma EdgeCount(ws: seq<World>, es: seq<Event>, k: nat, c: nat)
    requires c < k <= |es| == |ws| - 1 && IsLastEdge(ws, es, k, c)
    ensures es[c].Capture? && ws[k].node.rx.lastEdgeCount == es[c].count
  {}

  /** Settling time is respected, seen from the frame sent. A frame accepted at `i`, with no other frame sent, is
      transmitted, and as often as it is repeated, in true time at or after its settling time: since the last edge
      `c`, or for an answer since the last edge `c` of the last data frame. If it had to wait, it starts at most
      100 us after that, unless the counter has gone round (or, for an answer, other edges have come since). The two
      exceptions are a frame sent to an idle bus, and an answer without any data frame before it (then `c` is -1). */
  lemma FrameSettled(ws: seq<World>, es: seq<Event>, ts: seq<int>, i: nat, k: nat) returns (c: int)
    requires Timed(ws, es, ts) && FairRun(ws, es) && i <= k < |es| && OneFrame(ws, es, i, k + 1)
    requires ws[k].node.tx.starts < ws[k + 1].node.tx.starts
    requires k == i ==> ws[i].node.rx.status == INTER_FRAME_IDLE
    ensures -1 <= c < k
    ensures var kind := es[i].frame.kind;
            if kind != Backward then
              && c >= 0 && IsLastEdge(ws, es, k, c) && ts[k] - ts[c] >= RequiredTime(kind)
              && (k > i ==> InTime(ts[k] - ts[c], RequiredTime(kind)))
            else
              c >= 0 ==>
                && (exists s :: c < s < k && IsLastFull(ws, es, k, s, c))
                && ts[k] - ts[c] >= 5500
                && (k > i && (forall m :: c < m < k ==> !es[m].Capture?) ==> InTime(ts[k] - ts[c], 5500))
  {
    hide Step, Inv, SettlingTime, Fair, Due, IsLastEdge, Quiet, Wrap, FrameStartCount;
    var kind := es[i].frame.kind;
    var last := SettlingRespected(ws, es, ts, k);
    if i < k {
      WaitingType(ws, es, i, k);
      OnlyMatch(ws, es, i, k);
    }
    if kind != Backward {
      c := last;
    } else {
      var s: int;
      s, c := FullFrameBefore(ws, es, k);
      if c >= 0 { AnswerSettled(ws, es, ts, k, s, c, last); }
    }
  }

  lemma OnlyMatch(ws: seq<World>, es: seq<Event>, i: nat, k: nat)
    requires OneFrame(ws, es, i, k + 1) && i < k < |es|
    ensures !es[k].Send?
  {}

  /** An answer counts from the last data frame. */
  lemma AnswerSettled(ws: seq<World>, es: seq<Event>, ts: seq<int>, k: nat, s: nat, c: nat, last: nat)
    requires Timed(ws, es, ts) && FairRun(ws, es) && c < s < k < |es| && IsLastFull(ws, es, k, s, c)
    requires last < k && IsLastEdge(ws, es, k, last) && ws[k].node.tx.starts < ws[k + 1].node.tx.starts
    requires if es[k].Send? then ws[k].node.rx.status == INTER_FRAME_IDLE && es[k].frame.kind == Backward
             else es[k].PeriodMatch? && ws[k].node.rx.waiting && ws[k].node.rx.waitingType == Backward
    ensures ts[k] - ts[c] >= 5500
    ensures es[k].PeriodMatch? && (forall m :: c < m < k ==> !es[m].Capture?) ==> InTime(ts[k] - ts[c], 5500)
  {
    hide Step, Inv, Fair, Wrap, SettlingTime;
    var rx := ws[k].node.rx;
    DueAlong(ws, es, k);
    assert FollowsAt(ws, es, k) && FairAt(ws, es, k) && OnTimeAt(ws, es, ts, k);
    assert OnTimeAt(ws, es, ts, c) && OnTimeAt(ws, es, ts, last);
    TimesRequired(Backward);
    TimesRequired(Forward(5));
    if es[k].Send? {
      StartedBy(ws[k], es[k]);
      WrapDistance(ts[k], ts[c]);
      AtMost(ts[k] - ts[c]);
    } else if Late(rx, Backward) <= 100 {
      TrueLate(ts[c], ts[k], SettlingTime(Backward));
    } else {
      TrueLate(ts[last], ts[k], SettlingTime(Forward(5)));
    }
  }

  // ---- arbitration ----

  /** Two devices on one bus have seen the same last edge, and both have a frame waiting. The frame of the lower
      priority number starts first: the other device's period match cannot come earlier than 1300 us after that
      start, 1400 us if the start is exactly at its settling time. */
  lemma PriorityWins(ws: seq<World>, es: seq<Event>, ts: seq<int>, k: nat, c: nat,
                     ws': seq<World>, es': seq<Event>, ts': seq<int>, k': nat, c': nat)
    requires Released(ws, es, ts, k, c) && Released(ws', es', ts', k', c') && ts[c] == ts'[c']
    requires Prioritised(ws[k].node.rx.waitingType) && Prioritised(ws'[k'].node.rx.waitingType)
    requires PriorityOf(ws[k].node.rx.waitingType) < PriorityOf(ws'[k'].node.rx.waitingType)
    requires ts[k] - ts[c] < WORD
    ensures ts'[k'] - ts[k] >= 1300
    ensures ts[k] - ts[c] == RequiredTime(ws[k].node.rx.waitingType) ==> ts'[k'] - ts[k] >= 1400
  {
    ReleaseTime(ws, es, ts, k, c);
    ReleaseTime(ws', es', ts', k', c');
    SettlingSteps(ws[k].node.rx.waitingType, ws'[k'].node.rx.waitingType);
    hide Released, RequiredTime;
  }

  lemma SettlingSteps(kind: FrameType, kind': FrameType)
    requires Prioritised(kind) && Prioritised(kind') && PriorityOf(kind) < PriorityOf(kind')
    ensures RequiredTime(kind') - RequiredTime(kind) >= 1400
  {}

  /** A device's frame waits from moment `j` on; event `c` captured its last edge, and the next one, event `i`, is a
      start edge. No frame is sent in between. */
  ghost predicate WaitsUntil(ws: seq<World>, es: seq<Event>, ts: seq<int>, j: nat, i: nat, c: nat) {
    && Timed(ws, es, ts) && FairRun(ws, es) && c < j <= i < |es|
    && IsLastEdge(ws, es, j, c) && es[i].Capture?
    && (var rx := ws[j].node.rx; Listening(rx.status) && rx.waiting && rx.period.on && Prioritised(rx.waitingType))
    && (forall m :: j <= m < i ==> !es[m].Capture? && !es[m].Send?)
  }

  /** Arbitration. Two devices have seen the same last edge and both have a frame waiting; the one with the lower
      priority number starts at event `k`. If the other one hears an edge, event `i`, less than 1300 us after that
      start, it has not started before, and as long as the reception lasts (up to moment `n`) and nothing is sent, it
      starts nothing and keeps its frame waiting. */
  lemma Arbitration(ws: seq<World>, es: seq<Event>, ts: seq<int>, k: nat, c: nat,
                    ws': seq<World>, es': seq<Event>, ts': seq<int>, j: nat, i: nat, c': nat, n: nat)
    requires Released(ws, es, ts, k, c) && WaitsUntil(ws', es', ts', j, i, c') && ts[c] == ts'[c']
    requires Prioritised(ws[k].node.rx.waitingType) && ts[k] - ts[c] < WORD
    requires PriorityOf(ws[k].node.rx.waitingType) < PriorityOf(ws'[j].node.rx.waitingType)
    requires ts'[i] < ts[k] + 1300
    requires i < n <= |es'| && NoSend(es', i, n) && forall m :: i < m < n ==> !Listening(ws'[m].node.rx.status)
    ensures ws'[n].node.tx.starts == ws'[j].node.tx.starts
    ensures ws'[n].node.rx.waiting && ws'[n].node.rx.waitingType == ws'[j].node.rx.waitingType
    ensures ws'[n].node.rx.status == INTER_FRAME_IDLE ==> ws'[n].node.rx.period.on
  {
    hide Released, Step, Inv, Fair;
    InvFromBoot(ws', es', j);
    NotReleased(ws, es, ts, k, c, ws', es', ts', j, i, c', i);
    AppointmentKept(ws', es', j, i);
    LoserDefers(ws', es', i, n);
  }

  /** The period match of the waiting device has not come before its next edge. */
  lemma {:induction false} NotReleased(ws: seq<World>, es: seq<Event>, ts: seq<int>, k: nat, c: nat,
                                       ws': seq<World>, es': seq<Event>, ts': seq<int>, j: nat, i: nat, c': nat, m: nat)
    requires Released(ws, es, ts, k, c) && WaitsUntil(ws', es', ts', j, i, c') && ts[c] == ts'[c']
    requires Prioritised(ws[k].node.rx.waitingType) && ts[k] - ts[c] < WORD
    requires PriorityOf(ws[k].node.rx.waitingType) < PriorityOf(ws'[j].node.rx.waitingType)
    requires ts'[i] < ts[k] + 1300 && j <= m <= i
    ensures forall l :: j <= l < m ==> !es'[l].PeriodMatch?
  {
    if j < m {
      NotReleased(ws, es, ts, k, c, ws', es', ts', j, i, c', m - 1);
      if es'[m - 1].PeriodMatch? {
        InvFromBoot(ws', es', j);
        AppointmentKept(ws', es', j, m - 1);
        LastEdgeAlong(ws', es', j, m - 1, c');
        PriorityWins(ws, es, ts, k, c, ws', es', ts', m - 1, c');
        assert false;
      }
    }
    hide Step, Inv, Fair, Released, SettlingTime;
  }

  lemma {:induction false} LastEdgeAlong(ws: seq<World>, es: seq<Event>, j: nat, k: nat, c: nat)
    requires Run(ws, es) && c < j <= k <= |es| && IsLastEdge(ws, es, j, c) && Inv(ws[j])
    requires forall m :: j <= m < k ==> !es[m].Capture?
    ensures IsLastEdge(ws, es, k, c) && Inv(ws[k])
  {
    if j < k {
      hide Step, Inv, IsLastEdge;
      LastEdgeAlong(ws, es, j, k - 1, c);
      assert FollowsAt(ws, es, k - 1);
      EdgeKept(ws[k - 1], es[k - 1]);
      InvStep(ws[k - 1], es[k - 1]);
      LastEdgeStays(ws, es, k, c);
    }
  }

  /** A device that hears a start edge while its own frame waits leaves the bus to the other one: until the
      reception is over it starts nothing, its period channel stays off, and the frame stays waiting; after the
      stop condition the channel is armed again (and due as `SettlingRespected` says). */
  lemma {:induction false} LoserDefers(ws: seq<World>, es: seq<Event>, i: nat, j: nat)
    requires Run(ws, es) && i < j <= |es| && NoSend(es, i, j)
    requires Inv(ws[i]) && Listening(ws[i].node.rx.status) && ws[i].node.rx.waiting && es[i].Capture?
    requires forall m :: i < m < j ==> !Listening(ws[m].node.rx.status)
    ensures Inv(ws[j])
    ensures ws[j].node.tx.starts == ws[i].node.tx.starts
    ensures ws[j].node.rx.waiting && ws[j].node.rx.waitingType == ws[i].node.rx.waitingType
    ensures !Listening(ws[j].node.rx.status) ==> !ws[j].node.rx.period.on
    ensures ws[j].node.rx.status == INTER_FRAME_IDLE ==> ws[j].node.rx.period.on
  {
    hide Step, Ready, LevelAgrees, FrameAgrees, RepeatsAgree;
    assert FollowsAt(ws, es, j - 1);
    if j > i + 1 {
      LoserDefers(ws, es, i, j - 1);
    }
    InvStep(ws[j - 1], es[j - 1]);
    CopyStep(ws[j - 1], es[j - 1]);
    hide LosesCopy, Copies, EndsReception;
  }
}
