/** The transmitter's bit timer as a state machine on values (dali_101_tx.c, the transmit half of
    board/dali.c). */
module TxSpec {
  import opened Dali
  import opened Biphase
  import opened Encoder

  type Counts = s: seq<Word> | |s| == COUNT_ARRAY_SIZE witness seq(COUNT_ARRAY_SIZE, _ => 0)

  /** The match channel of the transmit timer: armed or not, the next match, whether a match toggles the pin. */
  datatype TxTimer = TxTimer(on: bool, next: Word, toggling: bool)

  /** `active` is the level driven on the line; `starts` counts the transmissions handed to the timer. */
  datatype TxState = TxState(
    count: Counts, indexNext: nat, indexMax: nat, stateNow: bool, repeat: Byte, isQuery: bool,
    timer: TxTimer, active: bool, starts: nat)

  predicate Valid(tx: TxState) {
    && tx.indexMax <= COUNT_ARRAY_SIZE
    && (tx.timer.on ==> 1 <= tx.indexNext <= tx.indexMax + 1 <= COUNT_ARRAY_SIZE)
  }

  function StartSend(tx: TxState): TxState {
    tx.(indexNext := 1, timer := TxTimer(true, tx.count[0], true), active := true, starts := tx.starts + 1)
  }

  function IrqCallback(tx: TxState): TxState
    requires tx.indexNext <= tx.indexMax ==> tx.indexNext < COUNT_ARRAY_SIZE
  {
    if tx.indexNext < tx.indexMax then
      tx.(timer := tx.timer.(next := tx.count[tx.indexNext]), indexNext := tx.indexNext + 1)
    else if tx.indexNext == tx.indexMax then
      tx.(timer := tx.timer.(next := tx.count[tx.indexNext], toggling := false), indexNext := tx.indexNext + 1)
    else
      tx.(timer := TxTimer(false, tx.timer.next, false), active := false, isQuery := false,
          indexNext := if tx.repeat == 0 then 0 else tx.indexNext)
  }

  /** The callback arms the query timer when a query's stop phase ends. */
  predicate QueryEnds(tx: TxState) {
    tx.indexNext > tx.indexMax && tx.isQuery
  }

  /** The timer reaches its match: the hardware toggles the pin, then the interrupt runs. */
  function TimerMatch(tx: TxState): (r: TxState)
    requires Valid(tx) && tx.timer.on
  {
    IrqCallback(tx.(active := if tx.timer.toggling then !tx.active else tx.active))
  }

  function Overwrite(count: Counts, ds: seq<int>): Counts {
    seq(COUNT_ARRAY_SIZE, k requires 0 <= k < COUNT_ARRAY_SIZE =>
      if k < |ds| then Wrap(Total(ds, k + 1)) else count[k])
  }

  /** A reset transmitter that has been given a frame: its counts from index 0, its repeats, whether it is
      a query. Entries behind the stop phase keep what they held, and so does a query mark. */
  function Load(tx: TxState, frame: TxFrame): (loaded: TxState)
    requires Valid(tx) && frame.length <= MAX_DATA_LENGTH
    ensures Valid(loaded) && loaded.indexMax < COUNT_ARRAY_SIZE
    ensures loaded.indexNext == 0 && !loaded.timer.on && loaded.repeat == frame.repeat && loaded.starts == tx.starts
  {
    EncodedBound(frame, 0);
    hide Overwrite, EncodedDurations;
    var ds := EncodedDurations(frame);
    tx.(count := Overwrite(tx.count, ds),
        indexNext := 0, indexMax := |ds| - 1, stateNow := LastLevel(frame),
        repeat := frame.repeat, isQuery := tx.isQuery || frame.kind.Query?,
        timer := if tx.indexNext == 0 then tx.timer else TxTimer(false, tx.timer.next, false),
        active := tx.active && tx.indexNext == 0)
  }

  lemma MatchKeeps(tx: TxState)
    requires Valid(tx) && tx.timer.on
    ensures var after := TimerMatch(tx);
            && Valid(after) && after.indexMax == tx.indexMax && after.repeat == tx.repeat && after.starts == tx.starts
            && (after.indexNext == 0 ==> tx.repeat == 0)
            && (QueryEnds(tx) ==> !after.isQuery)
  {}

  // ---- a whole transmission ----

  /** What the line does until the timer stops: when the level changes, how often the interrupt runs, how often the
      hardware toggles the pin, and the state left behind. */
  datatype TxRun = TxRun(edges: seq<Word>, callbacks: nat, toggles: nat, final: TxState)

  function RunTimer(tx: TxState): TxRun
    requires Valid(tx)
    decreases if tx.timer.on then tx.indexMax + 2 - tx.indexNext else 0
  {
    if !tx.timer.on then TxRun([], 0, 0, tx) else
    var after := TimerMatch(tx);
    var rest := RunTimer(after);
    TxRun((if after.active != tx.active then [tx.timer.next] else []) + rest.edges, rest.callbacks + 1,
          rest.toggles + (if tx.timer.toggling then 1 else 0), rest.final)
  }

  /** A transmission under way: phase `indexNext - 1` is on the line. The end of the last phase toggles the pin only if
      it is the only phase. */
  predicate UnderWay(tx: TxState) {
    && Valid(tx) && tx.timer.on
    && tx.timer.next == tx.count[tx.indexNext - 1]
    && (tx.timer.toggling <==> tx.indexNext <= tx.indexMax || tx.indexMax == 0)
  }

  /** The edges still to come: one at the end of every phase but the last, and one at the end of the last
      phase if that phase is active. */
  function EdgesToCome(tx: TxState): seq<Word>
    requires UnderWay(tx)
  {
    tx.count[tx.indexNext - 1..LastEdge(tx)]
  }

  function LastEdge(tx: TxState): nat {
    if tx.active == ((tx.indexMax - tx.indexNext) % 2 == 1) then tx.indexMax + 1 else tx.indexMax
  }

  lemma UnderWayStep(tx: TxState)
    requires UnderWay(tx) && tx.indexNext <= tx.indexMax
    ensures var after := TimerMatch(tx);
            && UnderWay(after) && after.indexNext == tx.indexNext + 1 && after.active != tx.active
            && after == tx.(timer := after.timer, indexNext := tx.indexNext + 1, active := !tx.active)
            && EdgesToCome(tx) == [tx.timer.next] + EdgesToCome(after)
  {
    var after := TimerMatch(tx);
    assert after.count == tx.count && after.indexMax == tx.indexMax;
    assert LastEdge(after) == LastEdge(tx);
    TakeFirst(tx.count, tx.indexNext - 1, LastEdge(tx));
  }

  lemma TakeFirst(s: seq<Word>, from: nat, to: nat)
    requires from < to <= |s|
    ensures s[from..to] == [s[from]] + s[from + 1..to]
  {}

  lemma {:induction false} RunFromHere(tx: TxState)
    requires UnderWay(tx)
    ensures RunTimer(tx).edges == EdgesToCome(tx)
    ensures RunTimer(tx).callbacks == tx.indexMax + 2 - tx.indexNext
    ensures RunTimer(tx).toggles == if tx.indexMax == 0 then 1 else tx.indexMax + 1 - tx.indexNext
    ensures var final := RunTimer(tx).final;
            && final.timer == TxTimer(false, tx.count[tx.indexMax], false)
            && final == tx.(timer := final.timer, active := false, isQuery := false,
                            indexNext := if tx.repeat == 0 then 0 else tx.indexMax + 1)
    decreases tx.indexMax + 2 - tx.indexNext
  {
    var after := TimerMatch(tx);
    if tx.indexNext <= tx.indexMax {
      UnderWayStep(tx);
      RunFromHere(after);
    } else {
      LastMatch(tx);
    }
  }

  lemma LastMatch(tx: TxState)
    requires UnderWay(tx) && tx.indexNext == tx.indexMax + 1
    ensures var after := TimerMatch(tx);
            && after.timer == TxTimer(false, tx.count[tx.indexMax], false)
            && after == tx.(timer := after.timer, active := false, isQuery := false,
                            indexNext := if tx.repeat == 0 then 0 else tx.indexMax + 1)
            && RunTimer(tx) == TxRun(EdgesToCome(tx), 1, if tx.indexMax == 0 then 1 else 0, after)
  {
    var after := TimerMatch(tx);
    assert RunTimer(after) == TxRun([], 0, 0, after);
    assert LastEdge(tx) == if tx.active then tx.indexMax + 1 else tx.indexMax;
    OneOrNone(tx.count, tx.indexMax);
  }

  lemma OneOrNone(s: seq<Word>, k: nat)
    requires k < |s|
    ensures s[k..k + 1] == [s[k]] && s[k..k] == []
  {}

  /** A transmission from its start: `indexMax + 1` interrupts; the line leaves idle at 0 and changes at
      `count[0..indexMax]`, once more at `count[indexMax]` if that is needed to end idle; the hardware does not toggle
      the pin at the end of the last of several phases, where the timer stops; with no repeats left the transmitter is
      idle again, otherwise it stays claimed. */
  lemma TransmissionRun(tx: TxState)
    requires tx.indexMax < COUNT_ARRAY_SIZE
    ensures var run := RunTimer(StartSend(tx));
            && run.edges == tx.count[..if tx.indexMax % 2 == 1 then tx.indexMax else tx.indexMax + 1]
            && run.callbacks == tx.indexMax + 1 && run.toggles == (if tx.indexMax == 0 then 1 else tx.indexMax)
            && run.final.timer.next == tx.count[tx.indexMax]
            && !run.final.timer.on && !run.final.active && run.final.count == tx.count
            && run.final.repeat == tx.repeat
            && (run.final.indexNext == 0 <==> tx.repeat == 0)
  {
    RunFromHere(StartSend(tx));
  }

  lemma EncodedBound(frame: TxFrame, k: nat)
    requires frame.length <= MAX_DATA_LENGTH && k < |EncodedDurations(frame)|
    ensures |EncodedDurations(frame)| < COUNT_ARRAY_SIZE
    ensures 0 <= Total(EncodedDurations(frame), k + 1) < WORD
  {
    var ds, bits := EncodedDurations(frame), Bits(frame.data, frame.length);
    FrameShape(bits);
    forall i | 0 <= i < |ds| ensures 0 <= ds[i] <= 2474 {
      if frame.kind != Corrupt { DurationsPositive(bits, i); }
    }
    TotalBound(ds, k + 1, 2474);
  }

  /** The phases of a frame on the line, in microseconds: those at even places are active. */
  function PhaseOnTheLine(w: Width, k: nat): int {
    if w == Half then (if k % 2 == 0 then 393 else 441) else (if k % 2 == 0 then 857 else 809)
  }

  /** On the line a frame is its phases and nothing else: the line goes active at 0, every phase up to the stop
      condition lasts what the biphase pattern prescribes, and it ends idle without help. */
  lemma FrameOnTheLine(tx: TxState, frame: TxFrame)
    requires Valid(tx) && frame.length <= MAX_DATA_LENGTH && frame.kind != Corrupt
    ensures var ws := Pattern(Bits(frame.data, frame.length));
            var edges := RunTimer(StartSend(Load(tx, frame))).edges;
            && |edges| == |ws|
            && forall k :: 0 <= k < |ws| ==> Gap(edges, k) == PhaseOnTheLine(ws[k], k)
  {
    var bits := Bits(frame.data, frame.length);
    var ds, ws, loaded := EncodedDurations(frame), Pattern(bits), Load(tx, frame);
    EncodedBound(frame, 0);
    TransmissionRun(loaded);
    var edges := RunTimer(StartSend(loaded)).edges;
    assert edges == loaded.count[..|ws|];
    forall k | 0 <= k < |ws| ensures Gap(edges, k) == PhaseOnTheLine(ws[k], k) {
      LoadedGap(tx, frame, k);
      PhaseDuration(ws, k);
      assert edges[k] == loaded.count[k] && (k > 0 ==> edges[k - 1] == loaded.count[k - 1]);
    }
  }

  lemma LoadedGap(tx: TxState, frame: TxFrame, k: nat)
    requires Valid(tx) && frame.length <= MAX_DATA_LENGTH && frame.kind != Corrupt
    requires k < |Pattern(Bits(frame.data, frame.length))| < COUNT_ARRAY_SIZE
    ensures Gap(Load(tx, frame).count, k) == Duration(Pattern(Bits(frame.data, frame.length))[k], k)
  {
    hide Load, Pattern;
    LoadedGapOf(tx, frame, k);
    DurationsPositive(Bits(frame.data, frame.length), k);
  }

  lemma LoadedGapOf(tx: TxState, frame: TxFrame, k: nat)
    requires Valid(tx) && frame.length <= MAX_DATA_LENGTH && k < |EncodedDurations(frame)| < COUNT_ARRAY_SIZE
    ensures Gap(Load(tx, frame).count, k) == EncodedDurations(frame)[k]
    ensures Load(tx, frame).count[k] < WORD / 2
  {
    hide EncodedDurations, LastLevel;
    EncodedRange(frame);
    var ds := EncodedDurations(frame);
    TotalBound(ds, k + 1, 2474);
    EncodedBound(frame, k);
    WrapSmall(Total(ds, k + 1));
    if k > 0 {
      EncodedBound(frame, k - 1);
      WrapSmall(Total(ds, k));
    }
  }

  lemma EncodedRange(frame: TxFrame)
    requires frame.length <= MAX_DATA_LENGTH
    ensures forall i :: 0 <= i < |EncodedDurations(frame)| ==> 0 <= EncodedDurations(frame)[i] <= 2474
  {
    forall i | 0 <= i < |EncodedDurations(frame)| ensures 0 <= EncodedDurations(frame)[i] <= 2474 {
      if frame.kind != Corrupt { DurationsPositive(Bits(frame.data, frame.length), i); }
    }
  }

  lemma PhaseDuration(ws: seq<Width>, k: nat)
    requires k < |ws| && exists bits :: ws == Pattern(bits)
    ensures Duration(ws[k], k) == PhaseOnTheLine(ws[k], k)
  {
    assert ws[k] != Bad;
  }

  /** Behind the last edge of a frame the transmitter is busy for the stop condition: for 2426 us if the last bit is a
      1, whose idle half is part of it, and for 2474 us if it is a 0. */
  lemma StopOnTheLine(tx: TxState, frame: TxFrame)
    requires Valid(tx) && frame.length <= MAX_DATA_LENGTH && frame.kind != Corrupt
    ensures var run := RunTimer(StartSend(Load(tx, frame)));
            && run.edges != []
            && Gap(run.edges + [run.final.timer.next], |run.edges|) ==
                 if Last(Bits(frame.data, frame.length)) then 2426 else 2474
  {
    hide Overwrite, EncodedDurations, Pattern, RunTimer, Gap;
    LoadedStop(tx, frame);
    LoadedLength(tx, frame);
    TransmissionRun(Load(tx, frame));
    GapBehind(Load(tx, frame).count, RunTimer(StartSend(Load(tx, frame))).edges, Load(tx, frame).indexMax);
  }

  lemma GapBehind(count: Counts, edges: seq<Word>, n: nat)
    requires 1 <= n < COUNT_ARRAY_SIZE && edges == count[..n]
    ensures edges != [] && |edges| == n && Gap(edges + [count[n]], n) == Gap(count, n)
  {}

  lemma LoadedLength(tx: TxState, frame: TxFrame)
    requires Valid(tx) && frame.length <= MAX_DATA_LENGTH && frame.kind != Corrupt
    ensures Load(tx, frame).indexMax == |Pattern(Bits(frame.data, frame.length))|
    ensures |Pattern(Bits(frame.data, frame.length))| % 2 == 1
  {
    FrameShape(Bits(frame.data, frame.length));
    hide Pattern, Overwrite, Durations;
  }

  lemma LoadedStop(tx: TxState, frame: TxFrame)
    requires Valid(tx) && frame.length <= MAX_DATA_LENGTH && frame.kind != Corrupt
    ensures var bits, loaded := Bits(frame.data, frame.length), Load(tx, frame);
            && 1 <= |Pattern(bits)| < COUNT_ARRAY_SIZE
            && Gap(loaded.count, |Pattern(bits)|) == if Last(bits) then 2426 else 2474
  {
    var bits := Bits(frame.data, frame.length);
    hide Load, Pattern, Gap;
    FrameShape(bits);
    LoadedGapOf(tx, frame, |Pattern(bits)|);
  }

  // ---- user-defined sequences ----

  function SequencePhases(periods: seq<Word>): seq<int> {
    seq(|periods|, k requires 0 <= k < |periods| => Shifted(periods[k], k))
  }

  /** The array holds the counts of the given periods, modulo 2^32, and nothing is being sent. */
  ghost predicate Entered(tx: TxState, periods: seq<Word>) {
    && tx.indexMax == |periods| <= COUNT_ARRAY_SIZE && !tx.timer.on && tx.indexNext == 0
    && forall k :: 0 <= k < |periods| ==> tx.count[k] == Wrap(Total(SequencePhases(periods), k + 1))
  }

  lemma EnteredNext(tx: TxState, tx': TxState, periods: seq<Word>, period: Word)
    requires Entered(tx, periods) && |periods| < COUNT_ARRAY_SIZE
    requires tx'.indexMax == |periods| + 1 && tx'.timer == tx.timer && tx'.indexNext == 0
    requires tx'.count == tx.count[|periods| :=
               Wrap((if |periods| == 0 then 0 else tx.count[|periods| - 1]) + Shifted(period, |periods|))]
    ensures Entered(tx', periods + [period])
  {
    var n, ds, ds' := |periods|, SequencePhases(periods), SequencePhases(periods + [period]);
    forall k | 0 <= k <= n ensures tx'.count[k] == Wrap(Total(ds', k + 1)) {
      if k < n {
        TotalPrefix(ds, ds', k + 1);
      } else {
        TotalPrefix(ds, ds', n);
        WrapAdd(Total(ds, n), Shifted(period, n));
      }
    }
  }
}
