/** Types and constants shared by the transmitter, the receiver and the serial front end
    (dali_101.h and board/dali.h). */
module Dali {

  const WORD := 0x1_0000_0000

  /** uint8_t and uint32_t. */
  type Byte = x: int | 0 <= x < 0x100
  type Word = x: int | 0 <= x < 0x1_0000_0000

  /** Conversion to uint32_t. */
  function Wrap(x: int): (r: Word) {
    x % WORD
  }

  lemma WrapSmall(x: int)
    requires 0 <= x < WORD
    ensures Wrap(x) == x
  {}

  lemma WrapAdd(a: int, b: int)
    ensures Wrap(Wrap(a) + b) == Wrap(a + b)
  {}

  const MAX_DATA_LENGTH := 32
  const COUNT_ARRAY_SIZE := 2 + MAX_DATA_LENGTH * 2 + 1

  // board/dali.h: rise and fall times of the line drivers, in microseconds
  const TX_SHIFT := 4 + 20
  const RX_SHIFT := 20 - 4
  const SAFETY_MARGIN := 8

  // transmitter bit timing, in microseconds
  const HALF_BIT := 417
  const FULL_BIT := 833
  const CORRUPT_BIT := 1500
  const STOP_CONDITION := 2450

  // receiver bit timing, in microseconds
  const MIN_HALF := 333 - SAFETY_MARGIN
  const MAX_HALF := 500 + SAFETY_MARGIN
  const MIN_FULL := 666 - SAFETY_MARGIN
  const MAX_FULL := 1000 + SAFETY_MARGIN
  const MIN_STOP := 2400
  const MIN_FAILURE := 500000
  const MAX_BACKWARD_SETTLING := 13400

  // two equal frames closer than this, in milliseconds, are one frame sent twice
  const MAX_TWICE_DELAY := 95

  type Priority = p: int | 1 <= p <= 5 witness 1

  datatype FrameType =
    | NoFrame
    | Backward
    | BackToBack
    | Forward(priority: Priority)
    | Query(priority: Priority)
    | Corrupt

  /** Status codes of received frames; the ones no code path produces are left out. */
  datatype Code =
    | OK
    | TIMEOUT
    | RECEIVE_START_TIMING
    | RECEIVE_DATA_TIMING
    | SYSTEM_FAILURE
    | SYSTEM_RECOVER
    | CAN_NOT_PROCESS
    | BAD_ARGUMENT

  datatype RxFrame = RxFrame(loopback: bool, twice: bool, code: Code, length: Byte, data: Word, timestamp: Word)

  const EMPTY_FRAME := RxFrame(false, false, OK, 0, 0, 0)

  datatype TxFrame = TxFrame(length: Byte, data: Word, repeat: Byte, kind: FrameType)
}
