/** The receiver of dali_101_rx.c: the struct `rx`, its interrupts and its notification handlers. Each method
    is proved to do what the function of the same name in RxSpec says; the properties are proved there. */
module Receiver {
  import opened Dali
  import opened TxSpec
  import RxSpec
  import opened Transmitter

  type Status = RxSpec.Status
  type Match = RxSpec.Match

  class Rx {
    var lastEdgeCount: Word
    var lastFullFrameCount: Word
    var edgeCount: Word
    var endInterFrameIdle: Word
    var status: Status
    var frame: RxFrame
    var lastDataBit: bool
    var waiting: bool
    var waitingType: FrameType
    /** The static variable of is_frame_received_twice. */
    var lastFrame: RxFrame
    // the match channels of the receive timer
    var stop: Match
    var period: Match
    var query: Match
    /** All frames handed to the queue. */
    var queue: seq<RxFrame>

    ghost function View(): RxSpec.RxState
      reads this
    {
      RxSpec.RxState(lastEdgeCount, lastFullFrameCount, edgeCount, endInterFrameIdle, status, frame, lastDataBit,
                     waiting, waitingType, lastFrame, stop, period, query, queue)
    }

    /** dali_rx_init: the receiver listens if the line is idle and is in failure if it is not. */
    constructor (pin: bool)
      ensures View() == RxSpec.Boot(pin)
    {
      lastEdgeCount, lastFullFrameCount, edgeCount, endInterFrameIdle := 0, 0, 0, 0;
      frame, lastFrame := EMPTY_FRAME, EMPTY_FRAME;
      lastDataBit, waiting, waitingType := false, false, NoFrame;
      stop, period, query := RxSpec.Match(0, false), RxSpec.Match(0, false), RxSpec.Match(0, false);
      queue := [];
      status := if pin then RxSpec.FAILURE else RxSpec.IDLE;
    }

    // ---- frames for the queue ----

    method QueueError(code: Code, bit: Byte, time: Word, tick: Word)
      modifies this
      ensures View() == RxSpec.QueueError(old(View()), code, bit, time, tick)
    {
      if status == RxSpec.ERROR_IN_FRAME {
        return;
      }
      if status == RxSpec.IDLE {
        frame := frame.(timestamp := tick);
      }
      if status == RxSpec.LOW {
        frame := frame.(timestamp := Wrap(tick - MIN_FAILURE / 1000));
      }
      frame := frame.(code := code);
      frame := frame.(length := 0);
      frame := frame.(data := time % 0x100_0000 * 0x100 + bit);
      queue := queue + [frame];
      status := RxSpec.ERROR_IN_FRAME;
    }

    method ReceivedTwice() returns (twice: bool)
      modifies this`lastFrame
      ensures twice == RxSpec.ReceivedTwice(old(lastFrame), frame) && lastFrame == frame
    {
      if lastFrame.length == frame.length {
        if lastFrame.data == frame.data {
          var delay := Wrap(frame.timestamp - lastFrame.timestamp);
          if delay < MAX_TWICE_DELAY {
            lastFrame := frame;
            return true;
          }
        }
      }
      lastFrame := frame;
      return false;
    }

    method QueueFrame()
      modifies this
      ensures View() == RxSpec.QueueFrame(old(View()))
    {
      lastFullFrameCount := lastEdgeCount;
      var twice := ReceivedTwice();
      frame := frame.(twice := twice);
      queue := queue + [frame];
      frame := EMPTY_FRAME;
    }

    method Reset()
      modifies this`status, this`frame
      ensures View() == RxSpec.Reset(old(View()))
    {
      status := RxSpec.IDLE;
      frame := EMPTY_FRAME;
    }

    method GenerateTimeout(tick: Word)
      modifies this
      ensures View() == RxSpec.GenerateTimeout(old(View()), tick)
    {
      if status == RxSpec.IDLE || status == RxSpec.INTER_FRAME_IDLE {
        frame := frame.(timestamp := tick, code := TIMEOUT, length := 0, loopback := false, data := 0);
        queue := queue + [frame];
        Reset();
      }
    }

    // ---- decoding ----

    method CorrectedDifference(invert: bool) returns (difference: Word)
      ensures difference == RxSpec.CorrectedDifference(View(), invert)
    {
      difference := Wrap(edgeCount - lastEdgeCount);
      if lastDataBit != invert {
        return Wrap(difference + RX_SHIFT);
      }
      return Wrap(difference - RX_SHIFT);
    }

    method CheckStartTiming(tick: Word)
      modifies this
      ensures View() == RxSpec.CheckStartTiming(old(View()), tick)
    {
      var difference := CorrectedDifference(false);
      if MIN_HALF <= difference <= MAX_HALF {
        if status == RxSpec.DATA_BIT_START {
          frame := RxSpec.ShiftIn(frame, lastDataBit);
        }
        return;
      }
      if status == RxSpec.START_BIT_START {
        QueueError(RECEIVE_START_TIMING, frame.length, difference, tick);
      } else {
        QueueError(RECEIVE_DATA_TIMING, frame.length, difference, tick);
      }
    }

    method CheckInsideTiming(tick: Word) returns (next: Status)
      modifies this
      ensures (View(), next) == RxSpec.CheckInsideTiming(old(View()), tick)
    {
      var difference := CorrectedDifference(true);
      if MIN_HALF <= difference <= MAX_HALF {
        return RxSpec.DATA_BIT_START;
      }
      if MIN_FULL <= difference <= MAX_FULL {
        lastDataBit := !lastDataBit;
        frame := RxSpec.ShiftIn(frame, lastDataBit);
        return RxSpec.DATA_BIT_INSIDE;
      }
      QueueError(RECEIVE_DATA_TIMING, frame.length, difference, tick);
      return RxSpec.ERROR_IN_FRAME;
    }

    method SetNewStatus(next: Status)
      modifies this`status
      ensures View() == RxSpec.SetNewStatus(old(View()), next)
    {
      if status != RxSpec.ERROR_IN_FRAME {
        status := next;
      }
    }

    // ---- when to send ----

    /** The settling time of a backward frame counts from the last full frame, that of any other from the last
        edge. */
    function FrameStartCount(kind: FrameType): (start: Word)
      reads this
      ensures var from := if kind == Backward then lastFullFrameCount else lastEdgeCount;
              Wrap(start - from) == RxSpec.SettlingTime(kind)
    {
      if kind == Backward then Wrap(lastFullFrameCount + RxSpec.SettlingTime(kind))
      else Wrap(lastEdgeCount + RxSpec.SettlingTime(kind))
    }

    method ScheduleSettling(kind: FrameType, now: Word)
      modifies this`endInterFrameIdle, this`period
      ensures View() == RxSpec.ScheduleSettling(old(View()), kind, now)
    {
      endInterFrameIdle := FrameStartCount(kind);
      if Wrap(endInterFrameIdle - now) < 100 {
        endInterFrameIdle := Wrap(now + 100);
      }
      period := RxSpec.Match(endInterFrameIdle, true);
    }
  
    method ProcessPendingFrame(now: Word)
      modifies this
      ensures View() == RxSpec.ProcessPendingFrame(old(View()), now)
    {
      if waiting {
        ScheduleSettling(waitingType, now);
      } else {
        ScheduleSettling(Forward(5), now);
      }
      status := RxSpec.INTER_FRAME_IDLE;
    }

    method ScheduleQuery(now: Word)
      modifies this`query
      ensures View() == RxSpec.ScheduleQuery(old(View()), now)
    {
      query := RxSpec.Match(Wrap(now + MAX_BACKWARD_SETTLING), true);
    }

    // ---- together with the transmitter ----

    /** The receiver and a transmitter that may be started. */
    ghost predicate Fits(tx: Tx)
      reads tx
    {
      tx.Valid() && tx.indexMax < COUNT_ARRAY_SIZE
    }

    ghost function NodeWith(tx: Tx): RxSpec.Node
      requires tx.Valid()
      reads this, tx, tx.count
    {
      RxSpec.Node(tx.View(), View())
    }

    method ScheduleTransmission(tx: Tx, kind: FrameType, now: Word)
      requires Fits(tx)
      modifies this, tx
      ensures Fits(tx) && NodeWith(tx) == RxSpec.ScheduleTransmission(old(NodeWith(tx)), kind, now)
    {
      hide RxSpec.SettlingTime, Wrap;
      waitingType := kind;
      if status == RxSpec.IDLE {
        tx.StartSend();
        waiting := false;
        return;
      }
      if status == RxSpec.INTER_FRAME_IDLE {
        var start := FrameStartCount(kind);
        if now >= start {
          tx.StartSend();
          return;
        }
        if start < endInterFrameIdle {
          if start - now < 100 {
            start := Wrap(now + 100);
          }
          period := RxSpec.Match(start, true);
        }
      }
      waiting := true;
    }

    method ManageTx(tx: Tx, now: Word)
      requires Fits(tx)
      modifies this, tx
      ensures Fits(tx) && NodeWith(tx) == RxSpec.ManageTx(old(NodeWith(tx)), now)
    {
      if tx.IsIdle() {
        return;
      }
      var again := tx.TryRepeat();
      if again {
        ScheduleTransmission(tx, waitingType, now);
      }
    }

    method Recover(tx: Tx, code: Code, bit: Byte, now: Word, tick: Word)
      requires Fits(tx)
      modifies this, tx
      ensures Fits(tx) && NodeWith(tx) == RxSpec.Recover(old(NodeWith(tx)), code, bit, now, tick)
    {
      var difference := CorrectedDifference(false);
      QueueError(code, bit, difference, tick);
      ManageTx(tx, now);
      Reset();
    }

    /** The reaction to an edge, before the edge is remembered as the last one. */
    method EdgeByStatus(tx: Tx, pin: bool, now: Word, tick: Word)
      requires Fits(tx)
      modifies this, tx
      ensures Fits(tx) && NodeWith(tx) == RxSpec.EdgeByStatus(old(NodeWith(tx)), pin, now, tick)
    {
      match status
      case INTER_FRAME_IDLE => StartReception(tx, pin, tick);
      case IDLE => StartReception(tx, pin, tick);
      case START_BIT_START =>
        CheckStartTiming(tick);
        SetNewStatus(RxSpec.START_BIT_INSIDE);
      case START_BIT_INSIDE =>
        var next := CheckInsideTiming(tick);
        SetNewStatus(next);
      case DATA_BIT_START =>
        CheckStartTiming(tick);
        SetNewStatus(RxSpec.DATA_BIT_INSIDE);
      case DATA_BIT_INSIDE =>
        var next := CheckInsideTiming(tick);
        SetNewStatus(next);
      case ERROR_IN_FRAME =>
      case LOW =>
        if !pin {
          var code := RECEIVE_START_TIMING;
          if frame.length > 1 {
            code := RECEIVE_DATA_TIMING;
          }
          Recover(tx, code, frame.length, now, tick);
        }
      case FAILURE =>
        if !pin {
          frame := frame.(timestamp := tick);
          Recover(tx, SYSTEM_RECOVER, 0, now, tick);
        }
    }

    method StartReception(tx: Tx, pin: bool, tick: Word)
      requires Fits(tx) && (status == RxSpec.IDLE || status == RxSpec.INTER_FRAME_IDLE)
      modifies this
      ensures NodeWith(tx) == RxSpec.StartReception(old(NodeWith(tx)), pin, tick)
    {
      if pin {
        SetNewStatus(RxSpec.START_BIT_START);
        lastDataBit := true;
        frame := frame.(timestamp := tick);
        frame := frame.(loopback := !tx.IsIdle());
        query := query.(on := false);
        period := period.(on := false);
      }
    }

    method ProcessCapture(tx: Tx, pin: bool, now: Word, tick: Word)
      requires Fits(tx)
      modifies this, tx
      ensures Fits(tx) && NodeWith(tx) == RxSpec.ProcessCapture(old(NodeWith(tx)), pin, now, tick)
    {
      hide RxSpec.EdgeByStatus;
      EdgeByStatus(tx, pin, now, tick);
      lastEdgeCount := edgeCount;
    }

    method ProcessMatch(tx: Tx, pin: bool, now: Word, tick: Word)
      requires Fits(tx)
      modifies this, tx
      ensures Fits(tx) && NodeWith(tx) == RxSpec.ProcessMatch(old(NodeWith(tx)), pin, now, tick)
    {
      hide RxSpec.ManageTx, RxSpec.QueueFrame, RxSpec.ProcessPendingFrame, RxSpec.EndOfError, RxSpec.QueueError;
      if !pin {
        match status {
          case IDLE =>
          case INTER_FRAME_IDLE =>
          case LOW => EndOfError(tx, now);
          case FAILURE => EndOfError(tx, now);
          case ERROR_IN_FRAME => EndOfError(tx, now);
          case _ =>
            ManageTx(tx, now);
            QueueFrame();
            ProcessPendingFrame(now);
        }
        return;
      }
      match status {
        case LOW =>
          QueueError(SYSTEM_FAILURE, 0, 0, tick);
          status := RxSpec.FAILURE;
        case FAILURE =>
        case _ =>
          stop := RxSpec.Match(Wrap(lastEdgeCount + MIN_FAILURE), true);
          status := RxSpec.LOW;
      }
    }

    method EndOfError(tx: Tx, now: Word)
      requires Fits(tx)
      modifies this, tx
      ensures Fits(tx) && NodeWith(tx) == RxSpec.EndOfError(old(NodeWith(tx)), now)
    {
      ManageTx(tx, now);
      Reset();
      ProcessPendingFrame(now);
    }

    method ProcessPriorityTimeout(tx: Tx)
      requires Fits(tx)
      modifies this, tx
      ensures Fits(tx) && NodeWith(tx) == RxSpec.ProcessPriorityTimeout(old(NodeWith(tx)))
    {
      status := RxSpec.IDLE;
      if waiting {
        tx.StartSend();
        waiting := false;
      }
    }

    // ---- interrupts, each followed by the notification it sends ----

    method OnCapture(tx: Tx, count: Word, pin: bool, now: Word, tick: Word)
      requires Fits(tx)
      modifies this, tx
      ensures Fits(tx) && NodeWith(tx) == RxSpec.OnCapture(old(NodeWith(tx)), count, pin, now, tick)
    {
      hide RxSpec.ProcessCapture, Wrap;
      edgeCount := count;
      stop := RxSpec.Match(Wrap(edgeCount + MIN_STOP), true);
      ProcessCapture(tx, pin, now, tick);
    }

    method OnStopMatch(tx: Tx, pin: bool, now: Word, tick: Word)
      requires Fits(tx)
      modifies this, tx
      ensures Fits(tx) && NodeWith(tx) == RxSpec.OnStopMatch(old(NodeWith(tx)), pin, now, tick)
    {
      hide RxSpec.ProcessMatch;
      stop := stop.(on := false);
      ProcessMatch(tx, pin, now, tick);
    }

    /** The interrupt of the period channel disables the stop-bit channel. */
    method OnPeriodMatch(tx: Tx)
      requires Fits(tx)
      modifies this, tx
      ensures Fits(tx) && NodeWith(tx) == RxSpec.OnPeriodMatch(old(NodeWith(tx)))
    {
      stop := stop.(on := false);
      ProcessPriorityTimeout(tx);
    }

    method OnQueryMatch(tick: Word)
      modifies this
      ensures View() == RxSpec.GenerateTimeout(old(View()).(query := old(query).(on := false)), tick)
    {
      query := query.(on := false);
      GenerateTimeout(tick);
    }
  }
}
