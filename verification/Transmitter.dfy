/** The transmitter of dali_101_tx.c: the struct `tx`, the encoder that fills its array in place, and the
    interrupt that walks it. The transmit half of board/dali.c is the timer and the pin. */
module Transmitter {
  import opened Dali
  import opened Biphase
  import opened Encoder
  import opened TxSpec

  /** How an attempt to encode ends; the caller reports the two failures to the receiver's queue. */
  datatype Outcome = Encoded | CanNotProcess | BadArgument

  class Tx {
    const count: array<Word>
    var indexNext: nat
    var indexMax: nat
    var stateNow: bool
    var repeat: Byte
    var isQuery: bool
    // timer and pin
    var timer: TxTimer
    var active: bool
    ghost var starts: nat

    ghost predicate Valid()
      reads this
    {
      && count.Length == COUNT_ARRAY_SIZE
      && indexMax <= COUNT_ARRAY_SIZE
      && (timer.on ==> 1 <= indexNext <= indexMax + 1 <= COUNT_ARRAY_SIZE)
    }

    ghost function View(): (v: TxState)
      requires Valid()
      reads this, count
      ensures TxSpec.Valid(v)
    {
      TxState(count[..], indexNext, indexMax, stateNow, repeat, isQuery, timer, active, starts)
    }

    /** The array holds exactly the phases `ds`. */
    ghost predicate Holds(ds: seq<int>)
      reads this, count
    {
      indexMax == |ds| && Starts(count[..], ds)
    }

    constructor ()
      ensures Valid() && fresh(count)
      ensures timer == TxTimer(false, 0, false) && !active && starts == 0
      ensures indexNext == indexMax == 0 && stateNow && repeat == 0 && !isQuery
      ensures forall k :: 0 <= k < count.Length ==> count[k] == 0
    {
      count := new Word[COUNT_ARRAY_SIZE](_ => 0);
      indexNext, indexMax, stateNow, repeat, isQuery := 0, 0, true, 0, false;
      timer, active, starts := TxTimer(false, 0, false), false, 0;
    }

    // ---- board/dali.c ----

    method TimerStop()
      modifies this`timer
      ensures timer == TxTimer(false, old(timer.next), false)
    {
      timer := timer.(on := false, toggling := false);
    }

    method TimerNext(next: Word, disableToggle: bool)
      modifies this`timer
      ensures timer == old(timer).(next := next, toggling := old(timer.toggling) && !disableToggle)
    {
      timer := timer.(next := next);
      if disableToggle {
        timer := timer.(toggling := false);
      }
    }

    /** Drives the line active and toggles it at every match from now on. */
    method TimerSetup(next: Word)
      modifies this`timer, this`active, this`starts
      ensures timer == TxTimer(true, next, true) && active && starts == old(starts) + 1
    {
      TimerStop();
      TimerNext(next, false);
      timer := timer.(on := true, toggling := true);
      active := true;
      starts := starts + 1;
    }

    // ---- dali_101_tx.c ----

    predicate IsIdle()
      reads this
    {
      indexNext == 0
    }

    method Reset()
      requires Valid() && (IsIdle() ==> !timer.on)
      modifies this, count
      ensures Valid() && !timer.on && indexNext == 0 && indexMax == 0 && stateNow && count[0] == 0
      ensures forall k :: 1 <= k < count.Length ==> count[k] == old(count[k])
      ensures repeat == old(repeat) && isQuery == old(isQuery) && starts == old(starts)
      ensures timer.next == old(timer.next)
      ensures if old(IsIdle()) then active == old(active) && timer == old(timer) else !active && !timer.toggling
    {
      if !IsIdle() {
        active := false;
        TimerStop();
      }
      indexNext := 0;
      indexMax := 0;
      stateNow := true;
      count[0] := 0;
    }

    /** Appends a phase, or rewrites the last one; the correction looks at `indexMax` before it is
        decremented. */
    method AddSignalPhase(duration: Word, changeLastPhase: bool) returns (failed: bool)
      requires Valid()
      requires changeLastPhase ==> indexMax > 0
      modifies this`indexMax, count
      ensures Valid() <==> !(timer.on && !changeLastPhase && old(indexMax) == COUNT_ARRAY_SIZE - 1)
      ensures failed == (old(indexMax) >= COUNT_ARRAY_SIZE)
      ensures failed ==> indexMax == old(indexMax) && count[..] == old(count[..])
      ensures !failed ==>
              var keep := if changeLastPhase then old(indexMax) - 1 else old(indexMax);
              && indexMax == keep + 1
              && count[..] == old(count[..])[keep := Wrap(At(old(count[..]), keep) + Shifted(duration, old(indexMax)))]
    {
      if indexMax >= COUNT_ARRAY_SIZE {
        return true;
      }
      ghost var keep := if changeLastPhase then indexMax - 1 else indexMax;
      WrapAdd(Shifted(duration, indexMax), At(count[..], keep));
      var countNow: Word;
      if indexMax % 2 == 1 {
        countNow := Wrap(duration + TX_SHIFT);
      } else {
        countNow := Wrap(duration - TX_SHIFT);
      }
      if changeLastPhase {
        indexMax := indexMax - 1;
      }
      if indexMax > 0 {
        countNow := Wrap(countNow + count[indexMax - 1]);
      }
      count[indexMax] := countNow;
      indexMax := indexMax + 1;
      return false;
    }

    /** Appends one bit to an array that holds the phases `ws`, the last of them a half bit if the value
        changes. */
    method AddBit(value: bool, ghost ws: seq<Width>) returns (failed: bool)
      requires Valid() && !timer.on && Holds(Durations(ws)) && NoBad(ws)
      requires value != stateNow ==> ws != [] && ws[|ws| - 1] == Half
      modifies this`indexMax, this`stateNow, count
      ensures Valid()
      ensures failed == (|ws| + (if value == old(stateNow) then 1 else 0) >= COUNT_ARRAY_SIZE)
      ensures !failed ==> stateNow == value
      ensures !failed ==> Holds(Durations(WithBit(ws, value == old(stateNow))))
      ensures forall k :: indexMax <= k < count.Length ==> count[k] == old(count[k])
    {
      hide Starts, Total, Wrap, Shifted;
      ghost var before := count[..];
      if stateNow == value {
        failed := AddSignalPhase(HALF_BIT, false);
        if failed { return; }
        HalfAdded(ws, before, count[..]);
        ghost var between := count[..];
        failed := AddSignalPhase(HALF_BIT, false);
        if failed { return; }
        HalfAdded(ws + [Half], between, count[..]);
        assert ws + [Half, Half] == ws + [Half] + [Half];
      } else {
        ghost var front := ws[..|ws| - 1];
        assert ws == front + [Half];
        failed := AddSignalPhase(FULL_BIT, true);
        if failed { return; }
        FullAdded(front, before, count[..]);
        ghost var between := count[..];
        failed := AddSignalPhase(HALF_BIT, false);
        if failed { return; }
        HalfAdded(front + [Full], between, count[..]);
      }
      stateNow := value;
    }

    method AddStopCondition() returns (failed: bool)
      requires Valid() && !timer.on
      requires stateNow ==> indexMax > 0
      modifies this`indexMax, count
      ensures Valid()
      ensures failed == (old(indexMax) >= COUNT_ARRAY_SIZE)
      ensures !failed ==>
              && indexMax == (if stateNow then old(indexMax) - 1 else old(indexMax))
              && (forall k :: indexMax < k < count.Length ==> count[k] == old(count[k]))
      ensures !failed && stateNow && old(Holds(CorruptPhases())) ==> Starts(count[..], CorruptDurations())
      ensures forall bits ::
                !failed && stateNow == Last(bits) && old(Holds(Durations(ToMidBit(bits) + [Half]))) ==>
                Starts(count[..], FrameDurations(bits))
    {
      ghost var before := count[..];
      failed := AddSignalPhase(STOP_CONDITION, stateNow);
      if !failed {
        indexMax := indexMax - 1;
        if stateNow && old(Holds(CorruptPhases())) {
          CorruptStopAdded(before, count[..]);
        }
        forall bits | stateNow == Last(bits) && old(Holds(Durations(ToMidBit(bits) + [Half])))
          ensures Starts(count[..], FrameDurations(bits))
        {
          FrameStopAdded(bits, before, count[..]);
        }
      }
    }

    /** Encodes a frame into a transmitter that has just been reset. A frame of at most 32 bits always fits. */
    method CalculateCounts(frame: TxFrame) returns (outcome: Outcome)
      requires Valid() && !timer.on && indexMax == 0 && stateNow
      modifies this`indexMax, this`stateNow, count
      ensures Valid()
      ensures outcome == if frame.length > MAX_DATA_LENGTH then BadArgument else Encoded
      ensures outcome == BadArgument ==>
              indexMax == old(indexMax) && stateNow == old(stateNow) && count[..] == old(count[..])
      ensures outcome == Encoded ==>
              && 0 < indexMax == |EncodedDurations(frame)| - 1 < COUNT_ARRAY_SIZE
              && Starts(count[..], EncodedDurations(frame))
              && (forall k :: indexMax < k < count.Length ==> count[k] == old(count[k]))
              && stateNow == LastLevel(frame)
    {
      if frame.length > MAX_DATA_LENGTH {
        return BadArgument;
      }
      var failed := AddBit(true, []);
      if failed { return CanNotProcess; }
      assert [] + [Half, Half] == [Half, Half];
      if frame.kind == Corrupt {
        failed := AddCorruptPhases();
      } else {
        failed := AddDataBits(frame);
      }
      if failed { return CanNotProcess; }
      failed := AddStopCondition();
      MidBitIndex(Bits(frame.data, frame.length));
      if failed { return CanNotProcess; }
      return Encoded;
    }

    /** What dali_101_send does to the transmitter before it asks the receiver for its turn. */
    method LoadFrame(frame: TxFrame) returns (outcome: Outcome)
      requires Valid()
      modifies this, count
      ensures Valid() && indexMax < COUNT_ARRAY_SIZE
      ensures outcome == if frame.length > MAX_DATA_LENGTH then BadArgument else Encoded
      ensures outcome == Encoded ==> View() == Load(old(View()), frame)
      ensures outcome == BadArgument ==> IsIdle() && !timer.on
    {
      hide EncodedDurations, LastLevel;
      Reset();
      outcome := CalculateCounts(frame);
      if outcome != Encoded {
        return;
      }
      if frame.kind.Query? {
        isQuery := true;
      }
      repeat := frame.repeat;
      EncodedBound(frame, 0);
      Overwritten(old(count[..]), count[..], EncodedDurations(frame));
      hide Overwrite, Starts;
    }

    /** The loop over the sixteen phases of a corrupt frame. */
    method AddCorruptPhases() returns (failed: bool)
      requires Valid() && !timer.on && Holds(Durations([Half, Half]))
      modifies this`indexMax, count
      ensures Valid() && !failed && Holds(CorruptPhases())
      ensures forall k :: indexMax <= k < count.Length ==> count[k] == old(count[k])
    {
      ghost var all := CorruptPhases();
      assert Durations([Half, Half]) == all[..2];
      for i := 0 to 16
        invariant Valid() && Holds(all[..i + 2])
        invariant forall k :: indexMax <= k < count.Length ==> count[k] == old(count[k])
      {
        ghost var before := count[..];
        failed := AddSignalPhase(if i == EXTEND_CORRUPT_PHASE then CORRUPT_BIT else HALF_BIT, false);
        CorruptPhaseAdded(i + 2, before, count[..]);
      }
      assert all[..18] == all;
      failed := false;
    }

    /** The loop over the data bits, most significant first. */
    method AddDataBits(frame: TxFrame) returns (failed: bool)
      requires Valid() && !timer.on && stateNow && Holds(Durations([Half, Half]))
      requires frame.length <= MAX_DATA_LENGTH
      modifies this`indexMax, this`stateNow, count
      ensures Valid() && !failed
      ensures var bits := Bits(frame.data, frame.length);
              Holds(Durations(ToMidBit(bits) + [Half])) && stateNow == Last(bits)
      ensures forall k :: indexMax <= k < count.Length ==> count[k] == old(count[k])
    {
      ghost var bits := Bits(frame.data, frame.length);
      var i := frame.length - 1;
      assert ToMidBit([]) + [Half] == [Half, Half];
      while i >= 0
        invariant -1 <= i < frame.length
        invariant Valid()
        invariant var sent := bits[..frame.length - 1 - i];
                  Holds(Durations(ToMidBit(sent) + [Half])) && stateNow == Last(sent)
        invariant forall k :: indexMax <= k < count.Length ==> count[k] == old(count[k])
      {
        ghost var sent := bits[..frame.length - 1 - i];
        var value := (frame.data / Pow2(i)) % 2 == 1;
        NextBit(frame, i, value);
        failed := AddBit(value, ToMidBit(sent) + [Half]);
        assert Holds(Durations(ToMidBit(sent + [value]) + [Half]));
        i := i - 1;
      }
      assert bits[..frame.length] == bits;
      failed := false;
    }

    /** dali_tx_irq_callback; the result asks the receiver to arm its query timer. */
    method IrqCallback() returns (queryEnds: bool)
      requires Valid() && timer.on
      modifies this
      ensures Valid() && View() == TxSpec.IrqCallback(old(View()))
      ensures queryEnds == QueryEnds(old(View()))
    {
      queryEnds := false;
      if indexNext < indexMax {
        TimerNext(count[indexNext], false);
        indexNext := indexNext + 1;
        return;
      }
      if indexNext == indexMax {
        TimerNext(count[indexNext], true);
        indexNext := indexNext + 1;
        return;
      }
      active := false;
      TimerStop();
      if isQuery {
        queryEnds := true;
        isQuery := false;
      }
      if repeat == 0 {
        indexNext := 0;
      }
    }

    /** The match interrupt of the transmit timer: the pin has toggled in hardware when the callback runs. */
    method TimerMatch() returns (queryEnds: bool)
      requires Valid() && timer.on
      modifies this
      ensures Valid() && View() == TxSpec.TimerMatch(old(View()))
      ensures queryEnds == QueryEnds(old(View()))
    {
      if timer.toggling {
        active := !active;
      }
      queryEnds := IrqCallback();
    }

    method StartSend()
      requires Valid() && indexMax < COUNT_ARRAY_SIZE
      modifies this
      ensures Valid() && View() == TxSpec.StartSend(old(View()))
    {
      indexNext := 1;
      TimerSetup(count[0]);
    }

    method TryRepeat() returns (again: bool)
      requires Valid()
      modifies this`repeat
      ensures Valid() && again == (old(repeat) > 0)
      ensures repeat == if again then old(repeat) - 1 else old(repeat)
    {
      if repeat > 0 {
        repeat := repeat - 1;
        return true;
      }
      return false;
    }

    // ---- sequences of user-defined phases ----

    method SequenceStart()
      requires Valid() && (IsIdle() ==> !timer.on)
      modifies this, count
      ensures Valid() && !timer.on && IsIdle() && indexMax == 0 && repeat == 0
      ensures Entered(View(), [])
    {
      Reset();
      repeat := 0;
    }

    /** Adds a phase of the given length; the result says that the array is full. A phase added to the longest
        transmission while it is under way leaves no count for the end of its last phase. */
    method SequenceNext(period: Word) returns (failed: bool)
      requires Valid()
      modifies this`indexMax, count
      ensures Valid() <==> !(timer.on && old(indexMax) == COUNT_ARRAY_SIZE - 1)
      ensures failed == (old(indexMax) >= COUNT_ARRAY_SIZE)
      ensures failed ==> indexMax == old(indexMax) && count[..] == old(count[..])
      ensures !failed ==>
              && indexMax == old(indexMax) + 1
              && count[..] == old(count[..])[old(indexMax) :=
                   Wrap(At(old(count[..]), old(indexMax)) + Shifted(period, old(indexMax)))]
      ensures forall periods :: !failed && old(Entered(View(), periods)) ==> Entered(View(), periods + [period])
    {
      failed := AddSignalPhase(period, false);
      forall periods | !failed && old(Entered(View(), periods))
        ensures Entered(View(), periods + [period])
      {
        EnteredNext(old(View()), View(), periods, period);
      }
    }

    /** Sends what has been entered; the result says that there is nothing to send. */
    method SequenceExecute() returns (failed: bool)
      requires Valid()
      modifies this
      ensures Valid()
      ensures failed == (old(indexNext) >= old(indexMax) || old(indexMax) == 0)
      ensures failed ==> View() == old(View())
      ensures !failed ==> View() == TxSpec.StartSend(old(View()).(indexMax := old(indexMax) - 1))
    {
      if indexNext >= indexMax || indexMax == 0 {
        return true;
      }
      indexMax := indexMax - 1;
      StartSend();
      return false;
    }
  }

  const EXTEND_CORRUPT_PHASE := 2

  /** The bit that the loop looks at is the next one of the frame, and there is room for it. */
  lemma NextBit(frame: TxFrame, i: nat, value: bool)
    requires i < frame.length <= MAX_DATA_LENGTH
    requires value == ((frame.data / Pow2(i)) % 2 == 1)
    ensures var bits := Bits(frame.data, frame.length);
            var sent := bits[..frame.length - 1 - i];
            && bits[..frame.length - i] == sent + [value]
            && |ToMidBit(sent)| + 2 < COUNT_ARRAY_SIZE
            && WithBit(ToMidBit(sent) + [Half], value == Last(sent)) == ToMidBit(sent + [value]) + [Half]
  {
    var bits := Bits(frame.data, frame.length);
    var sent := bits[..frame.length - 1 - i];
    BitsAt(frame.data, frame.length, |sent|);
    MidBitIndex(sent);
    WithBitExtends(sent, value);
  }

  lemma WithBitExtends(sent: seq<bool>, value: bool)
    ensures WithBit(ToMidBit(sent) + [Half], value == Last(sent)) == ToMidBit(sent + [value]) + [Half]
  {
    ToMidBitAppend(sent, value);
    var ws := ToMidBit(sent);
    assert (ws + [Half])[..|ws|] == ws;
    assert ws + [Half] + [Half, Half] == ws + [Half, Half] + [Half];
  }

  lemma Overwritten(before: Counts, after: Counts, ds: seq<int>)
    requires |ds| <= COUNT_ARRAY_SIZE && Starts(after, ds)
    requires forall k :: |ds| <= k < COUNT_ARRAY_SIZE ==> after[k] == before[k]
    ensures after == Overwrite(before, ds)
  {
    forall k | 0 <= k < |ds| ensures after[k] == Wrap(Total(ds, k + 1)) {
      WrapSmall(after[k]);
    }
  }

  /** The phases after one more bit: two halves, or the last half extended and another half. */
  ghost function WithBit(ws: seq<Width>, same: bool): seq<Width>
    requires !same ==> ws != []
  {
    if same then ws + [Half, Half] else ws[..|ws| - 1] + [Full] + [Half]
  }

  ghost predicate Starts(c: seq<Word>, ds: seq<int>) {
    |ds| <= |c| && forall k :: 0 <= k < |ds| ==> c[k] == Total(ds, k + 1)
  }

  function At(c: seq<int>, n: nat): int
    requires n <= |c|
  {
    if n == 0 then 0 else c[n - 1]
  }

  lemma PhaseAdded(front: seq<int>, longer: seq<int>, before: seq<Word>, after: seq<Word>)
    requires front < longer && |longer| == |front| + 1
    requires Starts(before, front) && |front| < |before| == |after|
    requires forall k :: 0 <= k < |front| ==> after[k] == before[k]
    requires after[|front|] == Total(front, |front|) + longer[|front|]
    ensures Starts(after, longer)
  {
    TotalPrefix(front, longer, |front|);
    forall k | 0 <= k < |front| ensures after[k] == Total(longer, k + 1) {
      TotalPrefix(front, longer, k + 1);
    }
  }

  lemma WidthsBound(ws: seq<Width>)
    requires |ws| <= COUNT_ARRAY_SIZE
    ensures 0 <= Total(Durations(ws), |ws|) <= 60000
  {
    TotalBound(Durations(ws), |ws|, 857);
  }

  lemma HalfAdded(ws: seq<Width>, before: seq<Word>, after: seq<Word>)
    requires |ws| < COUNT_ARRAY_SIZE == |before| && Starts(before, Durations(ws))
    requires after == before[|ws| := Wrap(At(before, |ws|) + Shifted(HALF_BIT, |ws|))]
    ensures Starts(after, Durations(ws + [Half]))
  {
    WidthsBound(ws);
    WrapSmall(Total(Durations(ws), |ws|) + Shifted(HALF_BIT, |ws|));
    assert Durations(ws + [Half]) == Durations(ws) + [Duration(Half, |ws|)];
    PhaseAdded(Durations(ws), Durations(ws + [Half]), before, after);
  }

  lemma FullAdded(ws: seq<Width>, before: seq<Word>, after: seq<Word>)
    requires |ws| < COUNT_ARRAY_SIZE == |before| && Starts(before, Durations(ws + [Half]))
    requires after == before[|ws| := Wrap(At(before, |ws|) + Shifted(FULL_BIT, |ws| + 1))]
    ensures Starts(after, Durations(ws + [Full]))
  {
    WidthsBound(ws);
    forall k | 0 <= k < |ws| ensures before[k] == Total(Durations(ws), k + 1) {
      TotalPrefix(Durations(ws), Durations(ws + [Half]), k + 1);
    }
    WrapSmall(Total(Durations(ws), |ws|) + Shifted(FULL_BIT, |ws| + 1));
    assert Durations(ws + [Full]) == Durations(ws) + [Duration(Full, |ws|)];
    PhaseAdded(Durations(ws), Durations(ws + [Full]), before, after);
  }

  lemma CorruptPhaseAdded(n: nat, before: seq<Word>, after: seq<Word>)
    requires n < 18 && |before| == COUNT_ARRAY_SIZE && Starts(before, CorruptPhases()[..n])
    requires after == before[n := Wrap(At(before, n) + CorruptPhases()[n])]
    ensures Starts(after, CorruptPhases()[..n + 1])
  {
    var ds := CorruptPhases()[..n];
    TotalBound(ds, n, 1524);
    WrapSmall(Total(ds, n) + CorruptPhases()[n]);
    PhaseAdded(ds, CorruptPhases()[..n + 1], before, after);
  }

  lemma CorruptStopAdded(before: seq<Word>, after: seq<Word>)
    requires |before| == COUNT_ARRAY_SIZE && Starts(before, CorruptPhases())
    requires after == before[17 := Wrap(At(before, 17) + Shifted(STOP_CONDITION, 18))]
    ensures Starts(after, CorruptDurations())
  {
    var ds := CorruptPhases()[..17];
    TotalBound(ds, 17, 1524);
    WrapSmall(Total(ds, 17) + Shifted(STOP_CONDITION, 18));
    forall k | 0 <= k < 17 ensures before[k] == Total(ds, k + 1) {
      TotalPrefix(ds, CorruptPhases(), k + 1);
    }
    PhaseAdded(ds, CorruptDurations(), before, after);
  }

  /** The stop phase replaces the idle half of a final 1 and follows the active half of a final 0. */
  lemma FrameStopAdded(bits: seq<bool>, before: seq<Word>, after: seq<Word>)
    requires |Pattern(bits)| < COUNT_ARRAY_SIZE == |before|
    requires Starts(before, Durations(ToMidBit(bits) + [Half]))
    requires after == before[|Pattern(bits)| :=
                              Wrap(At(before, |Pattern(bits)|) + Shifted(STOP_CONDITION, |ToMidBit(bits)| + 1))]
    ensures Starts(after, FrameDurations(bits))
  {
    var ws := Pattern(bits);
    var ds := Durations(ws);
    WidthsBound(ws);
    WrapSmall(Total(ds, |ws|) + StopDuration(bits));
    forall k | 0 <= k < |ws| ensures before[k] == Total(ds, k + 1) {
      TotalPrefix(ds, Durations(ToMidBit(bits) + [Half]), k + 1);
    }
    PhaseAdded(ds, FrameDurations(bits), before, after);
  }
}
