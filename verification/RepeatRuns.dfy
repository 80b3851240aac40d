/** Runs in which a repeated frame is transmitted, heard by its own receiver and transmitted again, until the driver is
    idle: they exist for every frame, every number of repeats, and every order of events at the end of each copy. */
module RepeatRuns {
  import opened Dali
  import opened Biphase
  import opened Encoder
  import opened TxSpec
  import opened RxSpec
  import opened Runs
  import opened Loopback
  import opened Repeats

  /** The counts of an encoded frame: an odd number of phases, none shorter than a half bit, and a stop phase. */
  predicate Spaced(tx: TxState) {
    && tx.indexMax % 2 == 1 && tx.indexMax < COUNT_ARRAY_SIZE
    && (forall k :: 0 <= k < tx.indexMax ==> Gap(tx.count, k) >= 393)
    && 2426 <= Gap(tx.count, tx.indexMax) <= 2474
    && (forall k :: 0 <= k <= tx.indexMax ==> tx.count[k] < WORD / 2)
  }

  lemma LoadedSpaced(tx: TxState, frame: TxFrame)
    requires TxSpec.Valid(tx) && frame.length <= MAX_DATA_LENGTH
    ensures Spaced(Load(tx, frame))
  {
    hide Load, EncodedDurations, Gap;
    LoadedShape(tx, frame);
    var loaded, n := Load(tx, frame), |EncodedDurations(frame)|;
    forall k | 0 <= k < n
      ensures Gap(loaded.count, k) == EncodedDurations(frame)[k] && loaded.count[k] < WORD / 2
    {
      LoadedGapOf(tx, frame, k);
    }
  }

  lemma LoadedShape(tx: TxState, frame: TxFrame)
    requires TxSpec.Valid(tx) && frame.length <= MAX_DATA_LENGTH
    ensures var ds := EncodedDurations(frame);
            && |ds| == Load(tx, frame).indexMax + 1 < COUNT_ARRAY_SIZE && |ds| % 2 == 0 && |ds| >= 2
            && (forall k :: 0 <= k < |ds| - 1 ==> ds[k] >= 393)
            && 2426 <= ds[|ds| - 1] <= 2474
  {
    EncodedBound(frame, 0);
    EncodedShape(frame);
    hide EncodedDurations, Overwrite, LastLevel;
  }

  lemma EncodedShape(frame: TxFrame)
    requires frame.length <= MAX_DATA_LENGTH
    ensures var ds := EncodedDurations(frame);
            && |ds| % 2 == 0 && |ds| >= 2 && (forall k :: 0 <= k < |ds| - 1 ==> ds[k] >= 393)
            && 2426 <= ds[|ds| - 1] <= 2474
  {
    if frame.kind != Corrupt {
      PlainShape(Bits(frame.data, frame.length));
      hide FrameDurations;
    }
  }

  lemma PlainShape(bits: seq<bool>)
    ensures var ds := FrameDurations(bits);
            && |ds| % 2 == 0 && |ds| >= 2 && (forall k :: 0 <= k < |ds| - 1 ==> ds[k] >= 393)
            && 2426 <= ds[|ds| - 1] <= 2474
  {
    FrameShape(bits);
    hide Pattern;
    var ds := FrameDurations(bits);
    forall k | 0 <= k < |ds| - 1 ensures ds[k] >= 393 {
      DurationsPositive(bits, k);
    }
  }

  // ---- one copy ----

  /** A transmission has just started on a bus that is idle. */
  ghost predicate Started(w: World) {
    && Inv(w) && Listening(w.node.rx.status) && !w.node.rx.waiting && Spaced(w.node.tx)
    && w.node.tx.timer.on && w.node.tx.indexNext == 1
  }

  /** The time of event `j` of a copy that starts at `t` and is heard with delay `d`: the start edge, and then for
      every phase the match of the transmit timer and the edge it makes. */
  function CopyTime(count: Counts, t: int, d: nat, j: nat): int
    requires j <= 2 * COUNT_ARRAY_SIZE
  {
    if j == 0 then t + d
    else if j % 2 == 1 then t + count[(j - 1) / 2]
    else t + count[j / 2 - 1] + d
  }

  function CopyEvent(count: Counts, t: int, d: nat, j: nat): Event
    requires j <= 2 * COUNT_ARRAY_SIZE
  {
    var now := Wrap(CopyTime(count, t, d, j));
    if j % 2 == 1 then TxMatch(now) else Capture(now, now, 0)
  }

  /** The driver has heard `m` events of its own transmission. */
  ghost predicate Sending(w: World, w0: World, m: nat) {
    && Inv(w) && Hearing(w.node.rx.status) && !w.node.rx.waiting
    && (m > 0 ==> !Listening(w.node.rx.status))
    && w.active == ((m + 1) / 2 % 2 == 1)
    && w.node.tx.timer.on && w.node.tx.indexNext == 1 + m / 2
    && SameFrame(w.node.tx, w0.node.tx) && w.node.tx.repeat == w0.node.tx.repeat
    && w.node.tx.starts == w0.node.tx.starts
  }

  predicate SameFrame(tx: TxState, tx0: TxState) {
    tx.count == tx0.count && tx.indexMax == tx0.indexMax
  }

  lemma OwnEdge(w: World, e: Event)
    requires Inv(w) && e.Capture? && Hearing(w.node.rx.status)
    ensures var n, n' := w.node, Step(w, e).node;
            && n'.tx == n.tx && n'.rx.waiting == n.rx.waiting && !Listening(n'.rx.status)
            && Step(w, e).active == !w.active
            && !EndsReception(w, e)
  {
    if InBit(w.node.rx.status) { OwnEdgeInBit(w, e); }
    hide Wrap, ErrorData, CorrectedDifference, CheckStartTiming, InsideBit, Recover;
    hide FrameAgrees, TimersAgree, RepeatsAgree;
  }

  lemma OwnEdgeInBit(w: World, e: Event)
    requires Inv(w) && e.Capture? && InBit(w.node.rx.status)
    ensures var n, n' := w.node, Step(w, e).node;
            n'.tx == n.tx && n'.rx.waiting == n.rx.waiting && !Listening(n'.rx.status)
  {
    hide Wrap, ErrorData, CorrectedDifference, CheckStartTiming, InsideBit, ShiftIn, StartReception, Recover;
    hide FrameAgrees, TimersAgree, LevelAgrees, RepeatsAgree;
    var rx := CaptureIsr(w.node.rx, e.count);
    if rx.status == START_BIT_START || rx.status == DATA_BIT_START {
      BeginBit(rx, if rx.status == START_BIT_START then START_BIT_INSIDE else DATA_BIT_INSIDE, e.tick);
    } else {
      InsideBitCases(rx, e.tick);
    }
  }

  lemma OwnMatch(w: World, e: Event)
    requires Inv(w) && e.TxMatch? && Enabled(w, e) && w.node.tx.indexNext <= w.node.tx.indexMax
    ensures var n, n' := w.node, Step(w, e).node;
            && n'.rx == n.rx && n'.tx.timer.on && n'.tx.indexNext == n.tx.indexNext + 1
            && SameFrame(n'.tx, n.tx) && n'.tx.repeat == n.tx.repeat && n'.tx.starts == n.tx.starts
  {
    hide Wrap, FrameAgrees, TimersAgree, RepeatsAgree, LevelAgrees;
  }

  /** The worlds of the first `m` events of a copy. */
  lemma {:induction false} CopySofar(w: World, t: int, d: nat, m: nat) returns (ws: seq<World>)
    requires Started(w) && m <= 2 * w.node.tx.indexMax + 1
    ensures |ws| == m + 1 && ws[0] == w
    ensures forall j :: 0 <= j <= m ==> Sending(ws[j], w, j)
    ensures forall j :: 0 <= j < m ==> Follows(ws[j], CopyEvent(w.node.tx.count, t, d, j), ws[j + 1])
    ensures forall j :: 0 <= j < m ==> !EndsReception(ws[j], CopyEvent(w.node.tx.count, t, d, j))
    ensures m % 2 == 1 ==>
              ws[m].node.rx.stop == Match(Wrap(CopyTime(w.node.tx.count, t, d, m - 1) + MIN_STOP), true)
  {
    hide Step, LevelAgrees, FrameAgrees, TimersAgree, RepeatsAgree, Wrap, Follows, EndsReception, Spaced;
    if m == 0 {
      ws := [w];
      StartedSends(w);
    } else {
      var front := CopySofar(w, t, d, m - 1);
      var next := NextOwn(front[m - 1], w, CopyEvent(w.node.tx.count, t, d, m - 1), m - 1);
      WrapAdd(CopyTime(w.node.tx.count, t, d, m - 1), MIN_STOP);
      ws := front + [next];
    }
  }

  lemma StartedSends(w: World)
    requires Started(w)
    ensures Sending(w, w, 0)
  {}

  lemma NextOwn(w: World, w0: World, e: Event, m: nat) returns (next: World)
    requires Sending(w, w0, m) && m <= 2 * w0.node.tx.indexMax
    requires if m % 2 == 1 then e.TxMatch? else e.Capture?
    ensures Follows(w, e, next) && Sending(next, w0, m + 1) && !EndsReception(w, e)
    ensures e.Capture? ==> next.node.rx.stop == Match(Wrap(e.count + MIN_STOP), true)
  {
    hide Step, LevelAgrees, FrameAgrees, TimersAgree, RepeatsAgree, Wrap;
    if e.Capture? {
      next := NextEdge(w, e);
      OwnEdge(w, e);
    } else {
      InvStep(w, e);
      OwnMatch(w, e);
      next := Step(w, e);
      LevelStays(w, e);
    }
  }

  lemma LevelStays(w: World, e: Event)
    requires Ready(w.node.tx) && Enabled(w, e) && e.TxMatch?
    ensures Step(w, e).active == w.active
  {
    hide OnTxMatch;
  }

  /** How long the line and the receiver delay an edge; the longer delay brings the stop condition behind the last match
      of the transmit timer. */
  function Delay(stopFirst: bool): nat {
    if stopFirst then 20 else 100
  }

  /** A whole copy: it starts at `t`, its edges are heard with a fixed delay, and at its end the stop condition of the
      receiver comes before or behind the last match of the transmit timer. */
  function CopyEvents(tx: TxState, t: int, stopFirst: bool): (es: seq<Event>)
    requires Spaced(tx)
    ensures |es| == 2 * tx.indexMax + 3
  {
    var n, d := 2 * tx.indexMax + 1, Delay(stopFirst);
    var s, x := StopTime(tx, t, stopFirst), t + tx.count[tx.indexMax];
    seq(n, j requires 0 <= j < n => CopyEvent(tx.count, t, d, j)) +
    if stopFirst then [StopMatch(Wrap(s), 0), TxMatch(Wrap(x))] else [TxMatch(Wrap(x)), StopMatch(Wrap(s), 0)]
  }

  function CopyTimes(tx: TxState, t: int, stopFirst: bool): (ts: seq<int>)
    requires Spaced(tx)
    ensures |ts| == 2 * tx.indexMax + 3
  {
    var n, d := 2 * tx.indexMax + 1, Delay(stopFirst);
    var s, x := StopTime(tx, t, stopFirst), t + tx.count[tx.indexMax];
    seq(n, j requires 0 <= j < n => CopyTime(tx.count, t, d, j)) + if stopFirst then [s, x] else [x, s]
  }

  function StopTime(tx: TxState, t: int, stopFirst: bool): int
    requires Spaced(tx)
  {
    CopyTime(tx.count, t, Delay(stopFirst), 2 * tx.indexMax) + MIN_STOP
  }

  lemma CopyOrdered(tx: TxState, t: int, stopFirst: bool, j: nat)
    requires Spaced(tx) && j + 1 < |CopyTimes(tx, t, stopFirst)|
    ensures t <= CopyTimes(tx, t, stopFirst)[j] <= CopyTimes(tx, t, stopFirst)[j + 1]
  {
    var max := tx.indexMax;
    if j < 2 * max {
      assert Gap(tx.count, j / 2) >= 393;
    } else {
      assert Gap(tx.count, max) == tx.count[max] - tx.count[max - 1];
    }
  }

  /** No two receptions end among the events. */
  ghost predicate EndsOnce(ws: seq<World>, es: seq<Event>)
    requires |ws| == |es| + 1
  {
    forall p, m :: 0 <= p < m < |es| ==> !(EndsReception(ws[p], es[p]) && EndsReception(ws[m], es[m]))
  }

  /** A copy has ended: with no repeats left the driver is idle; otherwise the next copy waits for the period match. The
      transmitter is unclaimed meanwhile exactly if the stop condition has come first and one repeat is left. */
  ghost predicate Ended(w: World, w0: World, stopFirst: bool) {
    && Inv(w) && SameFrame(w.node.tx, w0.node.tx) && w.node.tx.starts == w0.node.tx.starts
    && if w0.node.tx.repeat == 0 then Done(w.node)
       else
         && w.node.rx.waiting && w.node.rx.period.on
         && (w.node.tx.indexNext == 0 <==> stopFirst && w0.node.tx.repeat == 1)
         && var n := OnPeriodMatch(w.node);
            && SameFrame(n.tx, w0.node.tx) && n.tx.repeat == w0.node.tx.repeat - 1
            && n.tx.starts == w0.node.tx.starts + 1 && n.tx.indexNext == 1 && n.tx.timer.on
            && n.rx.status == IDLE && !n.rx.waiting
  }

  /** The last two events of a copy. */
  lemma CopyTail(w: World, w0: World, s: Event, x: Event, stopFirst: bool) returns (mid: World, end: World)
    requires Sending(w, w0, 2 * w0.node.tx.indexMax + 1) && w0.node.tx.indexMax % 2 == 1 && w.node.rx.stop.on
    requires s.StopMatch? && x.TxMatch?
    ensures Follows(w, if stopFirst then s else x, mid) && Follows(mid, if stopFirst then x else s, end)
    ensures mid.node.tx.starts == w.node.tx.starts && Ended(end, w0, stopFirst)
    ensures !stopFirst ==> mid.node.rx.stop == w.node.rx.stop
  {
    hide Step, LevelAgrees, FrameAgrees, TimersAgree, RepeatsAgree, LosesCopy, EndsReception, OnPeriodMatch;
    var first, second := if stopFirst then s else x, if stopFirst then x else s;
    EitherOrder(w, s, x);
    mid := Step(w, first);
    end := Step(mid, second);
    InvStep(w, first);
    CopyStep(w, first);
    InvStep(mid, second);
    CopyStep(mid, second);
    if stopFirst { StopThenMatch(w, s, x); } else { StopKept(w, x); MatchThenStop(w, s, x); }
    ClaimAfter(w.node, s, x, if stopFirst && w.node.tx.repeat == 1 then 0 else w.node.tx.indexNext);
    hide AfterCopy;
  }

  lemma ClaimAfter(n: Node, s: Event, x: Event, indexNext: nat)
    requires s.StopMatch? && x.TxMatch?
    ensures var after := AfterCopy(n, s, x, indexNext);
            after.tx.indexNext == indexNext && (n.tx.repeat > 0 ==> after.rx.waiting)
  {
    hide EndOf, Wrap;
  }

  lemma StopKept(w: World, e: Event)
    requires Ready(w.node.tx) && Enabled(w, e) && e.TxMatch?
    ensures Step(w, e).node.rx.stop == w.node.rx.stop
  {
    hide TimerMatch, Wrap;
  }

  lemma {:induction false} SortedTo(ts: seq<int>, a: nat, b: nat)
    requires a <= b < |ts| && forall k :: 0 <= k < |ts| - 1 ==> ts[k] <= ts[k + 1]
    ensures ts[a] <= ts[b]
  {
    if a < b { SortedTo(ts, a, b - 1); }
  }

  /** The worlds of a whole copy. */
  ghost predicate Copy(ws: seq<World>, t: int, stopFirst: bool) {
    && ws != [] && Started(ws[0])
    && (var es, ts := CopyEvents(ws[0].node.tx, t, stopFirst), CopyTimes(ws[0].node.tx, t, stopFirst);
        && Timed(ws, es, ts) && Ended(ws[|es|], ws[0], stopFirst) && EndsOnce(ws, es)
        && (forall k :: 0 <= k < |es| ==> t <= ts[k]))
    && forall k :: 0 <= k < |ws| ==> ws[k].node.tx.starts == ws[0].node.tx.starts
  }

  lemma OneCopy(w: World, t: int, stopFirst: bool) returns (ws: seq<World>)
    requires Started(w)
    ensures Copy(ws, t, stopFirst) && ws[0] == w
  {
    hide Step, LevelAgrees, FrameAgrees, TimersAgree, RepeatsAgree, Wrap, Spaced, Follows, CopyTime, CopyEvent;
    hide CopyEvents, CopyTimes, Ended, Sending, EndsReception;
    var tx, es, ts := w.node.tx, CopyEvents(w.node.tx, t, stopFirst), CopyTimes(w.node.tx, t, stopFirst);
    var n := 2 * tx.indexMax + 1;
    var front := CopySofar(w, t, Delay(stopFirst), n);
    OddPhases(tx);
    SendingStarts(front[n], w, n);
    var s, x := if stopFirst then es[n] else es[n + 1], if stopFirst then es[n + 1] else es[n];
    CopyTailEvents(tx, t, stopFirst);
    var mid, end := CopyTail(front[n], w, s, x, stopFirst);
    ws := front + [mid, end];
    CopySorted(tx, t, stopFirst);
    forall k | 0 <= k < |es|
      ensures FollowsAt(ws, es, k) && OnTimeAt(ws, es, ts, k) && ws[k].node.tx.starts == w.node.tx.starts
      ensures k < n ==> !EndsReception(ws[k], es[k])
    {
      if k < n {
        CopyEventAt(tx, t, stopFirst, k);
        SendingStarts(front[k], w, k);
      }
    }
    OneStop(ws, es, n);
    EndedStarts(end, w, stopFirst);
    hide EndsOnce;
  }

  lemma OneStop(ws: seq<World>, es: seq<Event>, n: nat)
    requires |ws| == |es| + 1 == n + 3 && (es[n].TxMatch? || es[n + 1].TxMatch?)
    requires forall k :: 0 <= k < n ==> !EndsReception(ws[k], es[k])
    ensures EndsOnce(ws, es)
  {}

  lemma SendingStarts(w: World, w0: World, m: nat)
    requires Sending(w, w0, m)
    ensures w.node.tx.starts == w0.node.tx.starts
  {}

  lemma EndedStarts(w: World, w0: World, stopFirst: bool)
    requires Ended(w, w0, stopFirst)
    ensures w.node.tx.starts == w0.node.tx.starts
  {}

  lemma CopyEventAt(tx: TxState, t: int, stopFirst: bool, j: nat)
    requires Spaced(tx) && j < 2 * tx.indexMax + 1
    ensures CopyEvents(tx, t, stopFirst)[j] == CopyEvent(tx.count, t, Delay(stopFirst), j)
    ensures CopyTimes(tx, t, stopFirst)[j] == CopyTime(tx.count, t, Delay(stopFirst), j)
    ensures OnTime(Boot(false), CopyEvent(tx.count, t, Delay(stopFirst), j), CopyTime(tx.count, t, Delay(stopFirst), j))
    ensures var e := CopyEvents(tx, t, stopFirst)[j]; if j % 2 == 1 then e.TxMatch? else e.Capture?
  {
    hide Wrap, Spaced;
  }

  lemma CopyTailEvents(tx: TxState, t: int, stopFirst: bool)
    requires Spaced(tx)
    ensures var n, es, ts := 2 * tx.indexMax + 1, CopyEvents(tx, t, stopFirst), CopyTimes(tx, t, stopFirst);
            var (s, x) := if stopFirst then (n, n + 1) else (n + 1, n);
            && es[s] == StopMatch(Wrap(ts[s]), 0) && es[x] == TxMatch(Wrap(ts[x]))
            && ts[s] == CopyTime(tx.count, t, Delay(stopFirst), n - 1) + MIN_STOP
  {
    hide Wrap, Spaced;
  }

  lemma CopySorted(tx: TxState, t: int, stopFirst: bool)
    requires Spaced(tx)
    ensures var ts := CopyTimes(tx, t, stopFirst); forall a, b :: 0 <= a <= b < |ts| ==> t <= ts[a] <= ts[b]
  {
    var ts := CopyTimes(tx, t, stopFirst);
    forall k | 0 <= k < |ts| - 1 ensures t <= ts[k] <= ts[k + 1] {
      CopyOrdered(tx, t, stopFirst, k);
    }
    hide CopyTimes, Spaced;
    forall a, b | 0 <= a <= b < |ts| ensures t <= ts[a] <= ts[b] {
      SortedTo(ts, 0, a);
      SortedTo(ts, a, b);
    }
  }

  lemma OddPhases(tx: TxState)
    requires Spaced(tx)
    ensures tx.indexMax % 2 == 1 && tx.indexMax < COUNT_ARRAY_SIZE
  {}

  // ---- a copy is received ----

  /** The times at which the first `k + 1` edges of a copy are heard. */
  function EdgesHeard(count: Counts, heard: int, k: nat): (times: seq<int>)
    requires k <= COUNT_ARRAY_SIZE
    ensures |times| == k + 1 && times[0] == heard
    ensures forall i :: 1 <= i <= k ==> times[i] == heard + count[i - 1]
  {
    if k == 0 then [heard] else EdgesHeard(count, heard, k - 1) + [heard + count[k - 1]]
  }

  lemma {:induction false} CopyTimesHeard(tx: TxState, t: int, stopFirst: bool, k: nat)
    requires Spaced(tx) && k <= tx.indexMax
    ensures Times(CopyEvents(tx, t, stopFirst), CopyTimes(tx, t, stopFirst), 0, 2 * k + 1) ==
            EdgesHeard(tx.count, t + Delay(stopFirst), k)
  {
    hide CopyEvents, CopyTimes, CopyTime, CopyEvent, Times, Spaced, OnTime, Delay;
    OddPhases(tx);
    var es, ts := CopyEvents(tx, t, stopFirst), CopyTimes(tx, t, stopFirst);
    CopyEventAt(tx, t, stopFirst, 2 * k);
    EdgeTime(tx.count, t, Delay(stopFirst), k);
    if k == 0 {
      TimesFirst(es, ts);
    } else {
      CopyEventAt(tx, t, stopFirst, 2 * k - 1);
      CopyTimesHeard(tx, t, stopFirst, k - 1);
      TimesNext(es, ts, 2 * k);
    }
  }

  lemma TimesFirst(es: seq<Event>, ts: seq<int>)
    requires 0 < |es| == |ts| && es[0].Capture?
    ensures Times(es, ts, 0, 1) == [ts[0]]
  {
    assert Times(es, ts, 0, 0) == [];
  }

  lemma TimesNext(es: seq<Event>, ts: seq<int>, j: nat)
    requires 0 < j < |es| == |ts| && es[j].Capture? && !es[j - 1].Capture?
    ensures Times(es, ts, 0, j + 1) == Times(es, ts, 0, j - 1) + [ts[j]]
  {
    assert Times(es, ts, 0, j) == Times(es, ts, 0, j - 1);
  }

  lemma EdgeTime(count: Counts, t: int, d: nat, k: nat)
    requires k < COUNT_ARRAY_SIZE
    ensures CopyTime(count, t, d, 2 * k) == t + d + if k == 0 then 0 else count[k - 1]
  {}

  lemma EdgesEcho(tx: TxState, t: int, stopFirst: bool)
    requires Spaced(tx)
    ensures var es, ts := CopyEvents(tx, t, stopFirst), CopyTimes(tx, t, stopFirst);
            Echo(tx.count[..tx.indexMax], Times(es, ts, 0, 2 * tx.indexMax + 1))
  {
    CopyTimesHeard(tx, t, stopFirst, tx.indexMax);
    hide Spaced, Times, CopyEvents, CopyTimes;
    var edges, times := tx.count[..tx.indexMax], EdgesHeard(tx.count, t + Delay(stopFirst), tx.indexMax);
    forall k | 0 <= k < |edges| ensures times[k + 1] - times[k] == Gap(edges, k) {
      assert edges[k] == tx.count[k];
    }
  }

  /** The last edge and the stop condition of a copy. */
  lemma CopyHeard(ws: seq<World>, t: int, stopFirst: bool)
    requires Copy(ws, t, stopFirst)
    ensures var tx := ws[0].node.tx;
            var es, ts, l := CopyEvents(tx, t, stopFirst), CopyTimes(tx, t, stopFirst), 2 * tx.indexMax;
            tx.indexMax >= 1 && Hears(ws, es, ts, 0, l, if stopFirst then l + 1 else l + 2, tx.count[..tx.indexMax])
  {
    hide *;
    CopySpaced(ws, t, stopFirst);
    CopyListens(ws, t, stopFirst);
    var tx := ws[0].node.tx;
    EdgesEcho(tx, t, stopFirst);
    CopyEventAt(tx, t, stopFirst, 0);
    CopyEventAt(tx, t, stopFirst, 2 * tx.indexMax);
    CopyTailEvents(tx, t, stopFirst);
    var es, ts, l := CopyEvents(tx, t, stopFirst), CopyTimes(tx, t, stopFirst), 2 * tx.indexMax;
    HearsFrom(ws, es, ts, l, if stopFirst then l + 1 else l + 2, tx.count[..tx.indexMax]);
  }

  lemma HearsFrom(ws: seq<World>, es: seq<Event>, ts: seq<int>, l: nat, j: nat, edges: seq<int>)
    requires Timed(ws, es, ts) && 0 < l < j < |es| && Inv(ws[0]) && Listening(ws[0].node.rx.status)
    requires es[0].Capture? && es[l].Capture? && es[j].StopMatch?
    requires j == l + 1 || (j == l + 2 && es[l + 1].TxMatch?)
    requires Echo(edges, Times(es, ts, 0, l + 1))
    ensures Hears(ws, es, ts, 0, l, j, edges)
  {
    hide Inv, Echo, Times, FollowsAt, OnTimeAt;
  }

  /** A whole copy is received as one good frame. */
  lemma CopyReceived(ws: seq<World>, t: int, stopFirst: bool, tx: TxState, frame: TxFrame)
    requires Copy(ws, t, stopFirst) && TxSpec.Valid(tx) && frame.length <= MAX_DATA_LENGTH && frame.kind != Corrupt
    requires SameFrame(ws[0].node.tx, Load(tx, frame))
    ensures var q, q' := ws[0].node.rx.queue, ws[|ws| - 1].node.rx.queue;
            GoodFrames(q, q', 1, frame.length, frame.data % Pow2(frame.length))
  {
    hide *;
    CopySpaced(ws, t, stopFirst);
    var tx0 := ws[0].node.tx;
    CopyHeard(ws, t, stopFirst);
    CopyEdges(tx0, tx, frame);
    FrameReceived(frame, tx, ws, CopyEvents(tx0, t, stopFirst), CopyTimes(tx0, t, stopFirst), 0, 2 * tx0.indexMax,
                  if stopFirst then 2 * tx0.indexMax + 1 else 2 * tx0.indexMax + 2);
    if stopFirst { LastMatchKeeps(ws, t); }
  }

  lemma CopySpaced(ws: seq<World>, t: int, stopFirst: bool)
    requires Copy(ws, t, stopFirst)
    ensures ws != [] && Spaced(ws[0].node.tx) && ws[0].node.tx.indexMax % 2 == 1
    ensures ws[0].node.tx.indexMax < COUNT_ARRAY_SIZE && |ws| == 2 * ws[0].node.tx.indexMax + 4
  {
    OddPhases(ws[0].node.tx);
    hide Inv, Ended, EndsOnce, CopyTimes, FollowsAt, OnTimeAt;
  }

  lemma CopyListens(ws: seq<World>, t: int, stopFirst: bool)
    requires Copy(ws, t, stopFirst)
    ensures ws != [] && Spaced(ws[0].node.tx) && Inv(ws[0]) && Listening(ws[0].node.rx.status)
    ensures Timed(ws, CopyEvents(ws[0].node.tx, t, stopFirst), CopyTimes(ws[0].node.tx, t, stopFirst))
  {
    hide Inv, Spaced, CopyEvents, CopyTimes, Timed, Ended, EndsOnce;
  }

  lemma CopyEdges(tx0: TxState, tx: TxState, frame: TxFrame)
    requires TxSpec.Valid(tx) && frame.length <= MAX_DATA_LENGTH
    requires SameFrame(tx0, Load(tx, frame)) && tx0.indexMax % 2 == 1
    ensures RunTimer(StartSend(Load(tx, frame))).edges == tx0.count[..tx0.indexMax]
  {
    TransmissionRun(Load(tx, frame));
    hide Load, RunTimer;
  }

  lemma LastMatchKeeps(ws: seq<World>, t: int)
    requires Copy(ws, t, true)
    ensures |ws| >= 2 && ws[|ws| - 1].node.rx.queue == ws[|ws| - 2].node.rx.queue
  {
    var tx := ws[0].node.tx;
    var es, n := CopyEvents(tx, t, true), 2 * tx.indexMax + 2;
    CopyTailEvents(tx, t, true);
    assert FollowsAt(ws, es, n);
    hide Step, Inv, CopyEvents, CopyTimes, Ended, EndsOnce, Spaced;
    QueueKept(ws[n], es[n]);
  }

  lemma QueueKept(w: World, e: Event)
    requires Ready(w.node.tx) && Enabled(w, e) && (e.TxMatch? || e.PeriodMatch?)
    ensures Step(w, e).node.rx.queue == w.node.rx.queue
  {
    hide TimerMatch, Wrap;
  }

  // ---- all copies ----

  lemma TimedJoins(ws: seq<World>, es: seq<Event>, ts: seq<int>, ws': seq<World>, es': seq<Event>, ts': seq<int>)
    requires Timed(ws, es, ts) && Timed(ws', es', ts') && ws[|es|] == ws'[0]
    requires forall a, b :: 0 <= a < |ts| && 0 <= b < |ts'| ==> ts[a] <= ts'[b]
    ensures Timed(ws + ws'[1..], es + es', ts + ts')
  {
    hide Follows, OnTime;
    RunJoins(ws, es, ws', es');
    var all, events, times := ws + ws'[1..], es + es', ts + ts';
    forall k | 0 <= k < |events| ensures OnTimeAt(all, events, times, k) {
      if k < |es| { assert OnTimeAt(ws, es, ts, k); } else { assert OnTimeAt(ws', es', ts', k - |es|); }
    }
  }

  /** The settling time after a copy: the period match comes when the timer reaches its count, and starts the next
      copy. */
  lemma NextCopy(w: World, w0: World, stopFirst: bool, t: int) returns (e: Event, t': int, next: World)
    requires Started(w0) && Ended(w, w0, stopFirst) && w0.node.tx.repeat > 0
    ensures e.PeriodMatch? && t' >= t && Timed([w, next], [e], [t'])
    ensures Started(next) && SameFrame(next.node.tx, w0.node.tx) && next.node.tx.repeat == w0.node.tx.repeat - 1
    ensures next.node.tx.starts == w0.node.tx.starts + 1 && next.node.rx.queue == w.node.rx.queue
  {
    hide LevelAgrees, FrameAgrees, TimersAgree, RepeatsAgree, Wrap, OnPeriodMatch;
    t' := Reached(w.node.rx.period, t);
    CountReached(w.node.rx.period, t);
    e := PeriodMatch(Wrap(t'));
    InvStep(w, e);
    next := Step(w, e);
    var ws, es, ts := [w, next], [e], [t'];
    assert FollowsAt(ws, es, 0) && OnTimeAt(ws, es, ts, 0);
    SameSpaced(next.node.tx, w0.node.tx);
    QueueKept(w, e);
    hide Spaced;
  }

  lemma CountReached(m: Match, t: int)
    ensures Wrap(Reached(m, t)) == m.count
  {}

  lemma SameSpaced(tx: TxState, tx0: TxState)
    requires SameFrame(tx, tx0) && Spaced(tx0)
    ensures Spaced(tx)
  {}

  /** The first events are a copy of a transmission that has just started at `t`; it is heard as it is sent, and ends in
      the order given. */
  ghost predicate CopyFirst(w: World, es: seq<Event>, ts: seq<int>, t: int, stopFirst: bool) {
    && Started(w)
    && CopyEvents(w.node.tx, t, stopFirst) <= es && CopyTimes(w.node.tx, t, stopFirst) <= ts
  }

  /** The number of events of a copy. */
  function CopyLength(w: World): nat {
    2 * w.node.tx.indexMax + 3
  }

  /** The events are copies of a transmission that has just started at `t`, as many as there are orders; between any
      two there is a period match, and the copy behind it starts at that moment. */
  ghost predicate Copied(ws: seq<World>, es: seq<Event>, ts: seq<int>, t: int, orders: seq<bool>)
    decreases |orders|
  {
    && |ws| == |es| + 1 == |ts| + 1 && orders != [] && CopyFirst(ws[0], es, ts, t, orders[0])
    && var n := CopyLength(ws[0]);
       if |orders| == 1 then n == |es|
       else n < |es| && es[n].PeriodMatch? && Copied(ws[n + 1..], es[n + 1..], ts[n + 1..], ts[n], orders[1..])
  }

  /** Nothing else happens, and at the end the driver is idle. */
  ghost predicate Transmitted(ws: seq<World>, es: seq<Event>, ts: seq<int>, t: int, orders: seq<bool>) {
    && Timed(ws, es, ts) && NoSend(es, 0, |es|) && Undisturbed(ws, es, 0, |es|) && Done(ws[|es|].node)
    && Copied(ws, es, ts, t, orders)
  }

  lemma TimedRun(ws: seq<World>, es: seq<Event>, ts: seq<int>)
    requires Timed(ws, es, ts)
    ensures Run(ws, es) && |ts| == |es|
  {}

  lemma NothingSent(tx: TxState, t: int, stopFirst: bool)
    requires Spaced(tx)
    ensures NoSend(CopyEvents(tx, t, stopFirst), 0, |CopyEvents(tx, t, stopFirst)|)
  {}

  lemma LastCopy(ws: seq<World>, t: int, stopFirst: bool)
    requires Copy(ws, t, stopFirst) && ws[0].node.tx.repeat == 0
    ensures var es, ts := CopyEvents(ws[0].node.tx, t, stopFirst), CopyTimes(ws[0].node.tx, t, stopFirst);
            Transmitted(ws, es, ts, t, [stopFirst])
  {
    var es, ts := CopyEvents(ws[0].node.tx, t, stopFirst), CopyTimes(ws[0].node.tx, t, stopFirst);
    NothingSent(ws[0].node.tx, t, stopFirst);
    hide CopyEvents, CopyTimes, Inv, Spaced, EndsReception;
  }

  /** A copy, the period match behind it at `t'`, and the run that this match starts. */
  ghost predicate Continues(ws: seq<World>, t: int, stopFirst: bool, e: Event, t': int,
                            ws': seq<World>, es': seq<Event>, ts': seq<int>, orders: seq<bool>) {
    && Copy(ws, t, stopFirst) && Transmitted(ws', es', ts', t', orders)
    && e.PeriodMatch? && Timed([ws[|ws| - 1], ws'[0]], [e], [t'])
    && ws'[0].node.tx.starts == ws[0].node.tx.starts + 1
    && t' >= t && (forall k :: 0 <= k < |ws| - 1 ==> CopyTimes(ws[0].node.tx, t, stopFirst)[k] <= t')
    && forall k :: 0 <= k < |ts'| ==> t' <= ts'[k]
  }

  lemma ThreeJoin(ws: seq<World>, es: seq<Event>, ts: seq<int>, e: Event, t': int,
                  ws': seq<World>, es': seq<Event>, ts': seq<int>)
    requires Timed(ws, es, ts) && Timed(ws', es', ts') && Timed([ws[|ws| - 1], ws'[0]], [e], [t'])
    requires forall k :: 0 <= k < |ts| ==> ts[k] <= t'
    requires forall k :: 0 <= k < |ts'| ==> t' <= ts'[k]
    ensures Timed(ws + ws', es + [e] + es', ts + [t'] + ts')
  {
    hide FollowsAt, OnTimeAt;
    var front := ws + [ws'[0]];
    TimedJoins(ws, es, ts, [ws[|es|], ws'[0]], [e], [t']);
    assert [ws[|es|], ws'[0]][1..] == [ws'[0]];
    TimedJoins(front, es + [e], ts + [t'], ws', es', ts');
    assert front + ws'[1..] == ws + ws';
  }

  lemma ContinuesTimed(ws: seq<World>, t: int, stopFirst: bool, e: Event, t': int,
                       ws': seq<World>, es': seq<Event>, ts': seq<int>, orders: seq<bool>)
    requires Continues(ws, t, stopFirst, e, t', ws', es', ts', orders)
    ensures var es, ts := CopyEvents(ws[0].node.tx, t, stopFirst), CopyTimes(ws[0].node.tx, t, stopFirst);
            && Timed(ws + ws', es + [e] + es', ts + [t'] + ts') && NoSend(es + [e] + es', 0, |es| + 1 + |es'|)
            && forall k :: 0 <= k < |ts + [t'] + ts'| ==> t <= (ts + [t'] + ts')[k]
  {
    var es, ts := CopyEvents(ws[0].node.tx, t, stopFirst), CopyTimes(ws[0].node.tx, t, stopFirst);
    TimedRun(ws, es, ts);
    TimedRun(ws', es', ts');
    hide Inv, Spaced, CopyEvents, CopyTimes, EndsOnce, Copied, Ended, Done, Run, Timed, Undisturbed, Started;
    NothingSent(ws[0].node.tx, t, stopFirst);
    ThreeJoin(ws, es, ts, e, t', ws', es', ts');
  }

  /** Transmissions do not become fewer. */
  lemma StartsGrow(ws: seq<World>, es: seq<Event>, ts: seq<int>, t: int, orders: seq<bool>)
    requires Transmitted(ws, es, ts, t, orders)
    ensures forall k :: 0 <= k < |ws| ==> ws[0].node.tx.starts <= ws[k].node.tx.starts
  {
    hide Inv, Spaced, Follows, EndsReception;
    forall k | 0 <= k < |ws| ensures ws[0].node.tx.starts <= ws[k].node.tx.starts {
      Conservation(ws, es, 0, k);
    }
  }

  lemma UndisturbedJoins(ws: seq<World>, es: seq<Event>, e: Event, ws': seq<World>, es': seq<Event>)
    requires |ws| == |es| + 1 && |ws'| == |es'| + 1 && e.PeriodMatch?
    requires EndsOnce(ws, es) && Undisturbed(ws', es', 0, |es'|)
    requires forall p, m :: 0 <= p < |ws| && 0 <= m < |ws'| ==> ws[p].node.tx.starts < ws'[m].node.tx.starts
    ensures Undisturbed(ws + ws', es + [e] + es', 0, |es| + 1 + |es'|)
  {
    var all, events, n := ws + ws', es + [e] + es', |es|;
    forall p, m | 0 <= p < m < |events|
      ensures EndsReception(all[p], events[p]) && EndsReception(all[m], events[m]) ==>
                all[p].node.tx.starts < all[m].node.tx.starts
    {
      assert !EndsReception(all[n], e);
      if m < n {
        assert !(EndsReception(ws[p], es[p]) && EndsReception(ws[m], es[m]));
      } else if p > n {
        assert all[p] == ws'[p - n - 1] && all[m] == ws'[m - n - 1];
      }
      hide EndsReception;
    }
  }

  lemma ContinuesUndisturbed(ws: seq<World>, t: int, stopFirst: bool, e: Event, t': int,
                             ws': seq<World>, es': seq<Event>, ts': seq<int>, orders: seq<bool>)
    requires Continues(ws, t, stopFirst, e, t', ws', es', ts', orders)
    ensures var es := CopyEvents(ws[0].node.tx, t, stopFirst);
            |ws| == |es| + 1 && |ws'| == |es'| + 1 && Undisturbed(ws + ws', es + [e] + es', 0, |es| + 1 + |es'|)
  {
    var es := CopyEvents(ws[0].node.tx, t, stopFirst);
    hide Inv, Spaced, CopyEvents, CopyTimes, Follows, EndsReception, Copied, Ended, OnTimeAt, FollowsAt, Done;
    StartsGrow(ws', es', ts', t', orders);
    UndisturbedJoins(ws, es, e, ws', es');
  }

  lemma Behind<T>(a: seq<T>, b: seq<T>)
    ensures (a + b)[|a|..] == b && a <= a + b
  {}

  lemma ContinuesCopied(ws: seq<World>, es: seq<Event>, ts: seq<int>, t: int, stopFirst: bool, e: Event, t': int,
                        ws': seq<World>, es': seq<Event>, ts': seq<int>, orders: seq<bool>)
    requires ws != [] && |ws| == |es| + 1 == |ts| + 1 == CopyLength(ws[0]) + 1 && e.PeriodMatch?
    requires CopyFirst(ws[0], es + [e] + es', ts + [t'] + ts', t, stopFirst)
    requires orders != [] && Copied(ws', es', ts', t', orders)
    ensures Copied(ws + ws', es + [e] + es', ts + [t'] + ts', t, [stopFirst] + orders)
  {
    hide CopyFirst;
    Behind(ws, ws');
    Behind(es + [e], es');
    Behind(ts + [t'], ts');
    Behind([stopFirst], orders);
  }

  lemma Prepend(ws: seq<World>, t: int, stopFirst: bool, e: Event, t': int,
                ws': seq<World>, es': seq<Event>, ts': seq<int>, orders: seq<bool>)
    returns (all: seq<World>, events: seq<Event>, times: seq<int>)
    requires Continues(ws, t, stopFirst, e, t', ws', es', ts', orders)
    ensures Transmitted(all, events, times, t, [stopFirst] + orders) && all != [] && all[0] == ws[0]
    ensures all[|all| - 1] == ws'[|ws'| - 1]
    ensures forall k :: 0 <= k < |times| ==> t <= times[k]
  {
    hide *;
    ContinuesParts(ws, t, stopFirst, e, t', ws', es', ts', orders);
    var es, ts := CopyEvents(ws[0].node.tx, t, stopFirst), CopyTimes(ws[0].node.tx, t, stopFirst);
    all, events, times := ws + ws', es + [e] + es', ts + [t'] + ts';
    ContinuesTimed(ws, t, stopFirst, e, t', ws', es', ts', orders);
    ContinuesUndisturbed(ws, t, stopFirst, e, t', ws', es', ts', orders);
    Joins(es, [e], es');
    Joins(ts, [t'], ts');
    ContinuesFirst(ws[0], t, stopFirst, events, times);
    ContinuesCopied(ws, es, ts, t, stopFirst, e, t', ws', es', ts', orders);
    TransmittedOf(all, events, times, t, [stopFirst] + orders);
  }

  lemma ContinuesParts(ws: seq<World>, t: int, stopFirst: bool, e: Event, t': int,
                       ws': seq<World>, es': seq<Event>, ts': seq<int>, orders: seq<bool>)
    requires Continues(ws, t, stopFirst, e, t', ws', es', ts', orders)
    ensures ws != [] && Spaced(ws[0].node.tx) && Started(ws[0])
    ensures |ws| == |CopyEvents(ws[0].node.tx, t, stopFirst)| + 1 == CopyLength(ws[0]) + 1
    ensures |CopyTimes(ws[0].node.tx, t, stopFirst)| == |ws| - 1
    ensures |ws'| == |es'| + 1 == |ts'| + 1 && orders != [] && e.PeriodMatch?
    ensures Copied(ws', es', ts', t', orders) && Done(ws'[|es'|].node)
  {
    hide Inv, Spaced, FollowsAt, OnTimeAt, EndsReception, CopyFirst, Ended, Undisturbed;
  }

  lemma TransmittedOf(ws: seq<World>, es: seq<Event>, ts: seq<int>, t: int, orders: seq<bool>)
    requires |ws| == |es| + 1 && Timed(ws, es, ts) && NoSend(es, 0, |es|) && Undisturbed(ws, es, 0, |es|)
    requires Done(ws[|es|].node) && Copied(ws, es, ts, t, orders)
    ensures Transmitted(ws, es, ts, t, orders)
  {
    hide Timed, NoSend, Undisturbed, Done, Copied;
  }

  lemma ContinuesFirst(w: World, t: int, stopFirst: bool, es: seq<Event>, ts: seq<int>)
    requires Started(w) && CopyEvents(w.node.tx, t, stopFirst) <= es && CopyTimes(w.node.tx, t, stopFirst) <= ts
    ensures CopyFirst(w, es, ts, t, stopFirst)
  {}

  lemma Joins<T>(a: seq<T>, b: seq<T>, c: seq<T>)
    ensures a <= a + b + c
  {}

  /** Where a copy ends. */
  lemma CopyEnd(ws: seq<World>, t: int, stopFirst: bool)
    requires Copy(ws, t, stopFirst)
    ensures var es, ts := CopyEvents(ws[0].node.tx, t, stopFirst), CopyTimes(ws[0].node.tx, t, stopFirst);
            && |ws| == |es| + 1 == |ts| + 1 && Started(ws[0]) && Ended(ws[|es|], ws[0], stopFirst)
            && t <= ts[|ts| - 1] && forall k :: 0 <= k < |ts| ==> ts[k] <= ts[|ts| - 1]
  {
    hide CopyEvents, CopyTimes, Started, Ended;
  }

  /** Every copy is received as a good frame; a corrupt frame is not meant to be. */
  ghost predicate Received(w: World, w': World, n: nat, frame: TxFrame) {
    frame.kind != Corrupt ==>
      GoodFrames(w.node.rx.queue, w'.node.rx.queue, n, frame.length, frame.data % Pow2(frame.length))
  }

  lemma ReceivedJoins(w: World, w1: World, w2: World, w3: World, n: nat, frame: TxFrame)
    requires Received(w, w1, 1, frame) && Received(w2, w3, n, frame) && w1.node.rx.queue == w2.node.rx.queue
    ensures Received(w, w3, n + 1, frame)
  {
    hide Pow2;
    if frame.kind != Corrupt {
      var q, q1, q3 := w.node.rx.queue, w1.node.rx.queue, w3.node.rx.queue;
      assert q3[..|q|] == q3[..|q1|][..|q|];
      forall k | |q| <= k < |q1| ensures q3[k] == q1[k] {
        assert q3[k] == q3[..|q1|][k];
      }
    }
  }

  /** From a transmission that has just started at `t`. */
  lemma {:induction false} AllCopies(w: World, t: int, orders: seq<bool>, tx: TxState, frame: TxFrame)
    returns (ws: seq<World>, es: seq<Event>, ts: seq<int>)
    requires Started(w) && |orders| == w.node.tx.repeat + 1
    requires TxSpec.Valid(tx) && frame.length <= MAX_DATA_LENGTH && SameFrame(w.node.tx, Load(tx, frame))
    ensures Transmitted(ws, es, ts, t, orders) && ws != [] && ws[0] == w
    ensures Received(w, ws[|ws| - 1], |orders|, frame)
    ensures forall k :: 0 <= k < |ts| ==> t <= ts[k]
    decreases w.node.tx.repeat
  {
    hide Inv, Spaced, CopyEvents, CopyTimes, Ended, Copy, Transmitted, Timed, Load, GoodFrames, Pow2;
    ws := OneCopy(w, t, orders[0]);
    es, ts := CopyEvents(w.node.tx, t, orders[0]), CopyTimes(w.node.tx, t, orders[0]);
    CopyEnd(ws, t, orders[0]);
    if frame.kind != Corrupt { CopyReceived(ws, t, orders[0], tx, frame); }
    hide Started;
    assert orders == [orders[0]] + orders[1..];
    if w.node.tx.repeat == 0 {
      assert orders == [orders[0]];
      LastCopy(ws, t, orders[0]);
      CopyStarts(ws, t, orders[0]);
    } else {
      var n := |es|;
      var e, t', next := NextCopy(ws[n], w, orders[0], ts[n - 1]);
      var ws', es', ts' := AllCopies(next, t', orders[1..], tx, frame);
      ReceivedJoins(w, ws[n], next, ws'[|ws'| - 1], |orders| - 1, frame);
      hide Received;
      ws, es, ts := Prepend(ws, t, orders[0], e, t', ws', es', ts', orders[1..]);
    }
  }

  lemma CopyStarts(ws: seq<World>, t: int, stopFirst: bool)
    requires Copy(ws, t, stopFirst)
    ensures forall k :: 0 <= k < |ws| - 1 ==> t <= CopyTimes(ws[0].node.tx, t, stopFirst)[k]
  {
    hide CopyEvents, CopyTimes, Started, Ended;
  }

  /** A frame sent to an idle bus starts at once. */
  lemma SendStarted(w: World, e: Event)
    requires Inv(w) && Enabled(w, e) && e.Send? && e.frame.kind != NoFrame
    requires w.node.rx.status == IDLE && !w.node.rx.waiting
    ensures Started(Step(w, e)) && Step(w, e).node.tx.repeat == e.frame.repeat
    ensures SameFrame(Step(w, e).node.tx, Load(w.node.tx, e.frame)) && Step(w, e).node.rx.queue == w.node.rx.queue
  {
    InvStep(w, e);
    LoadedSpaced(w.node.tx, e.frame);
    SameSpaced(StartSend(Load(w.node.tx, e.frame)), Load(w.node.tx, e.frame));
    hide Inv, Load, Spaced, Wrap;
  }

  lemma SentFirst(w: World, e: Event, t: int, ws: seq<World>, es: seq<Event>, ts: seq<int>, orders: seq<bool>)
    requires Transmitted(ws, es, ts, t, orders) && e.Send? && Timed([w, ws[0]], [e], [t])
    requires forall k :: 0 <= k < |ts| ==> t <= ts[k]
    ensures Timed([w] + ws, [e] + es, [t] + ts) && NoSend([e] + es, 1, |es| + 1)
    ensures Undisturbed([w] + ws, [e] + es, 1, |es| + 1)
  {
    hide Inv, Follows, EndsReception, Copied, OnTimeAt, FollowsAt, Done;
    TimedJoins([w, ws[0]], [e], [t], ws, es, ts);
    assert [w, ws[0]] + ws[1..] == [w] + ws;
  }

  /** Repeat conservation, complete. From every world in which the bus is idle and nothing waits, for every frame that
      can be encoded, every number r of repeats and every choice of order at the end of each of the r + 1 copies,
      there is a run, in true time, in which the frame is sent, every copy is heard as it is sent, the orders are as
      chosen, and the driver comes to rest after exactly r + 1 transmissions; its receiver has queued exactly r + 1
      frames, all of them good, with the length and the data (modulo 2^length) of the frame. */
  lemma RepeatsComplete(w: World, frame: TxFrame, t: int, orders: seq<bool>)
    returns (ws: seq<World>, es: seq<Event>, ts: seq<int>)
    requires Inv(w) && w.node.rx.status == IDLE && !w.node.rx.waiting
    requires frame.length <= MAX_DATA_LENGTH && frame.kind != NoFrame && |orders| == frame.repeat + 1
    ensures Timed(ws, es, ts) && OneFrame(ws, es, 0, |es|) && ws[0] == w && es[0] == Send(frame, Wrap(t)) && ts[0] == t
    ensures Copied(ws[1..], es[1..], ts[1..], t, orders)
    ensures Undisturbed(ws, es, 1, |es|) && Done(ws[|es|].node)
    ensures ws[|es|].node.tx.starts == w.node.tx.starts + frame.repeat + 1
    ensures Received(w, ws[|es|], frame.repeat + 1, frame)
  {
    hide Inv, Step, Wrap, Spaced, Copied, Timed, Undisturbed, Done, GoodFrames, Load, Pow2;
    var e := Send(frame, Wrap(t));
    ReadyOf(w);
    SendStarted(w, e);
    var ws', es', ts' := AllCopies(Step(w, e), t, orders, w.node.tx, frame);
    SendTimed(w, e, t);
    SentFirst(w, e, t, ws', es', ts', orders);
    ws, es, ts := [w] + ws', [e] + es', [t] + ts';
    TimedRun(ws', es', ts');
    TimedRun(ws, es, ts);
    assert ws[1..] == ws' && es[1..] == es' && ts[1..] == ts';
    RepeatsUndisturbed(ws, es, 0, |es|);
  }

  lemma SendTimed(w: World, e: Event, t: int)
    requires Ready(w.node.tx) && Enabled(w, e) && e.Send? && e.now == Wrap(t)
    ensures Timed([w, Step(w, e)], [e], [t])
  {
    hide Step, Wrap;
    assert FollowsAt([w, Step(w, e)], [e], 0) && OnTimeAt([w, Step(w, e)], [e], [t], 0);
  }
}
