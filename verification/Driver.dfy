/** The driver: transmitter and receiver linked together, the calls that cross between dali_101_tx.c and
    dali_101_rx.c, and the interrupts of both timers. */
module Driver {
  import opened Dali
  import opened Encoder
  import opened TxSpec
  import RxSpec
  import Runs
  import opened Transmitter
  import opened Receiver

  class Dali101 {
    const tx: Tx
    const rx: Rx

    ghost predicate Valid()
      reads this, tx
    {
      tx.Valid() && tx.indexMax < COUNT_ARRAY_SIZE
    }

    ghost function View(): RxSpec.Node
      requires tx.Valid()
      reads this, tx, tx.count, rx
    {
      RxSpec.Node(tx.View(), rx.View())
    }

    /** dali_101_init on a line of the given level: the first world of every run. */
    constructor (pin: bool)
      ensures Valid() && fresh(tx) && fresh(tx.count) && fresh(rx)
      ensures View() == Runs.BootWorld(pin).node
    {
      tx := new Tx();
      rx := new Rx(pin);
      new;
      assert tx.count[..] == seq(COUNT_ARRAY_SIZE, _ => 0);
    }

    /** dali_101_send. A frame of more than 32 bits is reported as a bad argument and loses the frame that was
        being sent. */
    method Send(frame: TxFrame, now: Word, tick: Word)
      requires tx.Valid()
      modifies tx, tx.count, rx
      ensures frame.kind != NoFrame || old(Valid()) ==> Valid()
      ensures tx.Valid()
      ensures frame.length <= MAX_DATA_LENGTH ==> View() == RxSpec.OnSend(old(View()), frame, now)
      ensures frame.length > MAX_DATA_LENGTH && frame.kind != NoFrame ==>
                && View().rx == RxSpec.QueueError(old(View()).rx, BAD_ARGUMENT, 0, 0, tick)
                && tx.IsIdle() && !tx.timer.on
    {
      hide Load, RxSpec.ScheduleTransmission, RxSpec.QueueError;
      if frame.kind == NoFrame {
        return;
      }
      var outcome := tx.LoadFrame(frame);
      if outcome != Encoded {
        rx.QueueError(if outcome == BadArgument then BAD_ARGUMENT else CAN_NOT_PROCESS, 0, 0, tick);
        return;
      }
      rx.ScheduleTransmission(tx, frame.kind, now);
    }

    /** A match of the transmit timer. */
    method TxTimerMatch(now: Word)
      requires Valid() && tx.timer.on
      modifies tx, rx
      ensures Valid() && View() == RxSpec.OnTxMatch(old(View()), now)
    {
      var queryEnds := tx.TimerMatch();
      if queryEnds {
        rx.ScheduleQuery(now);
      }
    }

    // ---- the four interrupts of the receive timer, each with its handler ----

    method Capture(count: Word, pin: bool, now: Word, tick: Word)
      requires Valid()
      modifies tx, rx
      ensures Valid() && View() == RxSpec.OnCapture(old(View()), count, pin, now, tick)
    {
      rx.OnCapture(tx, count, pin, now, tick);
    }

    method StopMatch(pin: bool, now: Word, tick: Word)
      requires Valid()
      modifies tx, rx
      ensures Valid() && View() == RxSpec.OnStopMatch(old(View()), pin, now, tick)
    {
      rx.OnStopMatch(tx, pin, now, tick);
    }

    method PeriodMatch()
      requires Valid()
      modifies tx, rx
      ensures Valid() && View() == RxSpec.OnPeriodMatch(old(View()))
    {
      rx.OnPeriodMatch(tx);
    }

    method QueryMatch(tick: Word)
      requires Valid()
      modifies rx
      ensures Valid() && View() == RxSpec.OnQueryMatch(old(View()), tick)
    {
      rx.OnQueryMatch(tick);
    }

    // ---- sequences of user-defined phases ----

    /** dali_101_sequence_next; a step that does not fit is reported. */
    method SequenceNext(period: Word, tick: Word)
      requires tx.Valid()
      modifies tx`indexMax, tx.count, rx
      ensures tx.Valid() <==> !(tx.timer.on && old(tx.indexMax) == COUNT_ARRAY_SIZE - 1)
      ensures var n, failed := old(tx.indexMax), old(tx.indexMax) >= COUNT_ARRAY_SIZE;
              && rx.View() == (if failed then RxSpec.QueueError(old(rx.View()), CAN_NOT_PROCESS, 0, 0, tick)
                               else old(rx.View()))
              && tx.indexMax == (if failed then n else n + 1)
              && tx.count[..] == if failed then old(tx.count[..])
                                 else old(tx.count[..])[n := Wrap(At(old(tx.count[..]), n) + Shifted(period, n))]
    {
      var failed := tx.SequenceNext(period);
      if failed {
        rx.QueueError(CAN_NOT_PROCESS, 0, 0, tick);
      }
    }

    /** dali_101_sequence_execute: what has been entered is transmitted; an empty sequence is reported. */
    method SequenceExecute(tick: Word)
      requires tx.Valid()
      modifies tx, rx
      ensures tx.Valid()
      ensures var n, failed := old(View()), old(tx.indexNext >= tx.indexMax || tx.indexMax == 0);
              View() == if failed then RxSpec.Node(n.tx, RxSpec.QueueError(n.rx, CAN_NOT_PROCESS, 0, 0, tick))
                        else RxSpec.Node(StartSend(n.tx.(indexMax := n.tx.indexMax - 1)), n.rx)
    {
      var failed := tx.SequenceExecute();
      if failed {
        rx.QueueError(CAN_NOT_PROCESS, 0, 0, tick);
      }
    }
  }
}
