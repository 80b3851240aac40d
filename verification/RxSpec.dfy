/** The receiver of dali_101_rx.c as a state machine on values, together with the transmitter it drives.
    Every function is one C function or one interrupt and the handler it notifies; `tick` is the
    FreeRTOS time in milliseconds, `now` the count of the receive timer when the handler reads it. */
module RxSpec {
  import opened Dali
  import opened TxSpec

  datatype Status =
    | IDLE
    | START_BIT_START
    | START_BIT_INSIDE
    | DATA_BIT_START
    | DATA_BIT_INSIDE
    | ERROR_IN_FRAME
    | INTER_FRAME_IDLE
    | LOW
    | FAILURE

  /** A match channel of the receive timer. */
  datatype Match = Match(count: Word, on: bool)

  /** The struct `rx`, the static `last_frame`, the three match channels and the frames handed to the queue. */
  datatype RxState = RxState(
    lastEdgeCount: Word, lastFullFrameCount: Word, edgeCount: Word, endInterFrameIdle: Word,
    status: Status, frame: RxFrame, lastDataBit: bool,
    waiting: bool, waitingType: FrameType, lastFrame: RxFrame,
    stop: Match, period: Match, query: Match, queue: seq<RxFrame>)

  datatype Node = Node(tx: TxState, rx: RxState)

  // ---- small predicates ----

  function SettlingTime(kind: FrameType): Word {
    match kind
    case Backward => 5500
    case Forward(p) => PrioritySettling(p)
    case Query(p) => PrioritySettling(p)
    case BackToBack => 2450
    case _ => 0
  }

  function PrioritySettling(p: Priority): Word {
    match p
    case 1 => 13500
    case 2 => 14900
    case 3 => 16300
    case 4 => 17900
    case 5 => 19500
  }

  predicate ValidHalfBit(difference: Word) {
    MIN_HALF <= difference <= MAX_HALF
  }

  predicate ValidFullBit(difference: Word) {
    MIN_FULL <= difference <= MAX_FULL
  }

  /** The edge from which the settling time of a frame counts. */
  function ReferenceCount(rx: RxState, kind: FrameType): Word {
    if kind == Backward then rx.lastFullFrameCount else rx.lastEdgeCount
  }

  function FrameStartCount(rx: RxState, kind: FrameType): Word {
    Wrap(ReferenceCount(rx, kind) + SettlingTime(kind))
  }

  /** Time since the last edge, corrected for the rise and fall times of the receiver by what the
      receiver believes the level to have been. */
  function CorrectedDifference(rx: RxState, invert: bool): Word {
    Corrected(rx.lastDataBit != invert, Wrap(rx.edgeCount - rx.lastEdgeCount))
  }

  function Corrected(active: bool, elapsed: Word): Word {
    Wrap(if active then elapsed + RX_SHIFT else elapsed - RX_SHIFT)
  }

  // ---- frames for the queue ----

  /** The time an error frame reports: 24 bits of microseconds above the 8 bits of the bit number. */
  function ErrorData(time: Word, bit: Byte): Word {
    time % 0x100_0000 * 0x100 + bit
  }

  function QueueError(rx: RxState, code: Code, bit: Byte, time: Word, tick: Word): RxState {
    if rx.status == ERROR_IN_FRAME then rx else
    var timestamp := if rx.status == IDLE then tick
                     else if rx.status == LOW then Wrap(tick - MIN_FAILURE / 1000)
                     else rx.frame.timestamp;
    var frame := rx.frame.(timestamp := timestamp, code := code, length := 0, data := ErrorData(time, bit));
    rx.(frame := frame, queue := rx.queue + [frame], status := ERROR_IN_FRAME)
  }

  predicate ReceivedTwice(last: RxFrame, frame: RxFrame) {
    last.length == frame.length && last.data == frame.data && Wrap(frame.timestamp - last.timestamp) < MAX_TWICE_DELAY
  }

  function QueueFrame(rx: RxState): RxState {
    rx.(lastFullFrameCount := rx.lastEdgeCount, lastFrame := rx.frame, frame := EMPTY_FRAME,
        queue := rx.queue + [rx.frame.(twice := ReceivedTwice(rx.lastFrame, rx.frame))])
  }

  function GenerateTimeout(rx: RxState, tick: Word): RxState {
    if rx.status != IDLE && rx.status != INTER_FRAME_IDLE then rx else
    var frame := rx.frame.(timestamp := tick, code := TIMEOUT, length := 0, loopback := false, data := 0);
    Reset(rx.(queue := rx.queue + [frame]))
  }

  function Reset(rx: RxState): RxState {
    rx.(status := IDLE, frame := EMPTY_FRAME)
  }

  // ---- decoding ----

  function ShiftIn(frame: RxFrame, bit: bool): RxFrame {
    frame.(data := Wrap(2 * frame.data + if bit then 1 else 0), length := (frame.length + 1) % 0x100)
  }

  function CheckStartTiming(rx: RxState, tick: Word): RxState {
    var difference := CorrectedDifference(rx, false);
    if ValidHalfBit(difference) then
      if rx.status == DATA_BIT_START then rx.(frame := ShiftIn(rx.frame, rx.lastDataBit)) else rx
    else
      QueueError(rx, if rx.status == START_BIT_START then RECEIVE_START_TIMING else RECEIVE_DATA_TIMING,
                 rx.frame.length, difference, tick)
  }

  /** Returns the receiver and the status it asks for. */
  function CheckInsideTiming(rx: RxState, tick: Word): (RxState, Status) {
    var difference := CorrectedDifference(rx, true);
    if ValidHalfBit(difference) then (rx, DATA_BIT_START)
    else if ValidFullBit(difference) then
      (rx.(lastDataBit := !rx.lastDataBit, frame := ShiftIn(rx.frame, !rx.lastDataBit)), DATA_BIT_INSIDE)
    else (QueueError(rx, RECEIVE_DATA_TIMING, rx.frame.length, difference, tick), ERROR_IN_FRAME)
  }

  function SetNewStatus(rx: RxState, status: Status): RxState {
    if rx.status != ERROR_IN_FRAME then rx.(status := status) else rx
  }

  /** The error frame that replaces the frame under construction. */
  function Faulted(frame: RxFrame, code: Code, time: Word): RxFrame {
    frame.(code := code, length := 0, data := ErrorData(time, frame.length))
  }

  /** The receiver gives up on the frame and says why. */
  function Fault(rx: RxState, code: Code, time: Word): RxState {
    var frame := Faulted(rx.frame, code, time);
    rx.(frame := frame, queue := rx.queue + [frame], status := ERROR_IN_FRAME)
  }

  /** An edge while the first half of a bit is due. */
  lemma BeginBit(rx: RxState, next: Status, tick: Word)
    requires rx.status == START_BIT_START || rx.status == DATA_BIT_START
    ensures SetNewStatus(CheckStartTiming(rx, tick), next) ==
            if !ValidHalfBit(CorrectedDifference(rx, false)) then
              Fault(rx, if rx.status == START_BIT_START then RECEIVE_START_TIMING else RECEIVE_DATA_TIMING,
                    CorrectedDifference(rx, false))
            else if rx.status == DATA_BIT_START then
              rx.(status := next, frame := ShiftIn(rx.frame, rx.lastDataBit))
            else rx.(status := next)
  {}

  /** An edge inside a bit. */
  lemma InsideBitCases(rx: RxState, tick: Word)
    requires rx.status == START_BIT_INSIDE || rx.status == DATA_BIT_INSIDE
    ensures InsideBit(rx, tick) ==
            if ValidHalfBit(CorrectedDifference(rx, true)) then rx.(status := DATA_BIT_START)
            else if ValidFullBit(CorrectedDifference(rx, true)) then
              rx.(status := DATA_BIT_INSIDE, lastDataBit := !rx.lastDataBit,
                  frame := ShiftIn(rx.frame, !rx.lastDataBit))
            else Fault(rx, RECEIVE_DATA_TIMING, CorrectedDifference(rx, true))
  {}

  // ---- when to send ----

  function ScheduleSettling(rx: RxState, kind: FrameType, now: Word): RxState {
    var target := FrameStartCount(rx, kind);
    var end := if Wrap(target - now) < 100 then Wrap(now + 100) else target;
    rx.(endInterFrameIdle := end, period := Match(end, true))
  }

  function ProcessPendingFrame(rx: RxState, now: Word): (r: RxState)
    ensures r == rx.(endInterFrameIdle := r.period.count, period := Match(r.period.count, true),
                     status := INTER_FRAME_IDLE)
  {
    ScheduleSettling(rx, if rx.waiting then rx.waitingType else Forward(5), now).(status := INTER_FRAME_IDLE)
  }

  function ScheduleTransmission(n: Node, kind: FrameType, now: Word): Node {
    var rx := n.rx.(waitingType := kind);
    if rx.status == IDLE then
      Node(StartSend(n.tx), rx.(waiting := false))
    else if rx.status == INTER_FRAME_IDLE then
      var start := FrameStartCount(rx, kind);
      if now >= start then
        Node(StartSend(n.tx), rx)
      else if start < rx.endInterFrameIdle then
        Node(n.tx, rx.(period := Match(if start - now < 100 then Wrap(now + 100) else start, true), waiting := true))
      else
        Node(n.tx, rx.(waiting := true))
    else
      Node(n.tx, rx.(waiting := true))
  }

  function ScheduleQuery(rx: RxState, now: Word): RxState {
    rx.(query := Match(Wrap(now + MAX_BACKWARD_SETTLING), true))
  }

  function ManageTx(n: Node, now: Word): (r: Node)
    ensures n.rx.status != IDLE && n.rx.status != INTER_FRAME_IDLE ==>
            r == if n.tx.indexNext == 0 || n.tx.repeat == 0 then n
                 else Node(n.tx.(repeat := n.tx.repeat - 1), n.rx.(waiting := true))
  {
    if n.tx.indexNext == 0 || n.tx.repeat == 0 then n else
    ScheduleTransmission(n.(tx := n.tx.(repeat := n.tx.repeat - 1)), n.rx.waitingType, now)
  }

  // ---- notifications ----

  function ProcessCapture(n: Node, active: bool, now: Word, tick: Word): Node {
    var after := EdgeByStatus(n, active, now, tick);
    after.(rx := after.rx.(lastEdgeCount := after.rx.edgeCount))
  }

  /** The reaction to an edge, by status. */
  function EdgeByStatus(n: Node, active: bool, now: Word, tick: Word): Node {
    var rx := n.rx;
    match rx.status {
      case IDLE => StartReception(n, active, tick)
      case INTER_FRAME_IDLE => StartReception(n, active, tick)
      case START_BIT_START => n.(rx := SetNewStatus(CheckStartTiming(rx, tick), START_BIT_INSIDE))
      case START_BIT_INSIDE => n.(rx := InsideBit(rx, tick))
      case DATA_BIT_START => n.(rx := SetNewStatus(CheckStartTiming(rx, tick), DATA_BIT_INSIDE))
      case DATA_BIT_INSIDE => n.(rx := InsideBit(rx, tick))
      case ERROR_IN_FRAME => n
      case LOW =>
        if active then n else
        var code := if rx.frame.length > 1 then RECEIVE_DATA_TIMING else RECEIVE_START_TIMING;
        Recover(n, code, rx.frame.length, now, tick)
      case FAILURE =>
        if active then n else
        Recover(n.(rx := rx.(frame := rx.frame.(timestamp := tick))), SYSTEM_RECOVER, 0, now, tick)
    }
  }

  function StartReception(n: Node, active: bool, tick: Word): Node {
    if !active then n else
    n.(rx := n.rx.(status := START_BIT_START, lastDataBit := true,
                   frame := n.rx.frame.(timestamp := tick, loopback := n.tx.indexNext != 0),
                   query := n.rx.query.(on := false), period := n.rx.period.(on := false)))
  }

  function InsideBit(rx: RxState, tick: Word): RxState {
    var (checked, status) := CheckInsideTiming(rx, tick);
    SetNewStatus(checked, status)
  }

  /** The line has come back to idle after LOW or FAILURE. */
  function Recover(n: Node, code: Code, bit: Byte, now: Word, tick: Word): Node {
    var reported := QueueError(n.rx, code, bit, CorrectedDifference(n.rx, false), tick);
    var managed := ManageTx(n.(rx := reported), now);
    managed.(rx := Reset(managed.rx))
  }

  function ProcessMatch(n: Node, active: bool, now: Word, tick: Word): Node {
    if !active then
      match n.rx.status
      case IDLE => n
      case INTER_FRAME_IDLE => n
      case LOW => EndOfError(n, now)
      case FAILURE => EndOfError(n, now)
      case ERROR_IN_FRAME => EndOfError(n, now)
      case _ =>
        var managed := ManageTx(n, now);
        managed.(rx := ProcessPendingFrame(QueueFrame(managed.rx), now))
    else
      match n.rx.status
      case LOW => n.(rx := QueueError(n.rx, SYSTEM_FAILURE, 0, 0, tick).(status := FAILURE))
      case FAILURE => n
      case _ => n.(rx := n.rx.(stop := Match(Wrap(n.rx.lastEdgeCount + MIN_FAILURE), true), status := LOW))
  }

  function EndOfError(n: Node, now: Word): Node {
    var managed := ManageTx(n, now);
    managed.(rx := ProcessPendingFrame(Reset(managed.rx), now))
  }

  function ProcessPriorityTimeout(n: Node): Node {
    if n.rx.waiting then Node(StartSend(n.tx), n.rx.(status := IDLE, waiting := false))
    else n.(rx := n.rx.(status := IDLE))
  }

  // ---- interrupts, each followed by the notification it sends ----

  function CaptureIsr(rx: RxState, count: Word): RxState {
    rx.(edgeCount := count, stop := Match(Wrap(count + MIN_STOP), true))
  }

  function OnCapture(n: Node, count: Word, active: bool, now: Word, tick: Word): Node {
    ProcessCapture(n.(rx := CaptureIsr(n.rx, count)), active, now, tick)
  }

  function OnStopMatch(n: Node, active: bool, now: Word, tick: Word): Node {
    ProcessMatch(n.(rx := n.rx.(stop := n.rx.stop.(on := false))), active, now, tick)
  }

  /** The period interrupt disables the stop-bit channel, not its own. */
  function OnPeriodMatch(n: Node): Node {
    ProcessPriorityTimeout(n.(rx := n.rx.(stop := n.rx.stop.(on := false))))
  }

  function OnQueryMatch(n: Node, tick: Word): Node {
    n.(rx := GenerateTimeout(n.rx.(query := n.rx.query.(on := false)), tick))
  }

  function OnTxMatch(n: Node, now: Word): Node
    requires TxSpec.Valid(n.tx) && n.tx.timer.on
  {
    Node(TimerMatch(n.tx), if QueryEnds(n.tx) then ScheduleQuery(n.rx, now) else n.rx)
  }

  /** dali_101_send with a frame that can be encoded. */
  function OnSend(n: Node, frame: TxFrame, now: Word): Node
    requires TxSpec.Valid(n.tx) && frame.length <= MAX_DATA_LENGTH
  {
    if frame.kind == NoFrame then n else
    ScheduleTransmission(n.(tx := Load(n.tx, frame)), frame.kind, now)
  }

  /** The receiver at boot: it listens if the line is idle and is in failure if it is not. */
  function Boot(active: bool): RxState {
    var off := Match(0, false);
    RxState(0, 0, 0, 0, if active then FAILURE else IDLE, EMPTY_FRAME, false, false, NoFrame, EMPTY_FRAME,
            off, off, off, [])
  }
}
