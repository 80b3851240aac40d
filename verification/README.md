# A verified model of the DALI bus driver

The driver sends and receives frames on a DALI bus (IEC 62386-101) and takes its orders over a serial line.
This project models

- the biphase **transmitter**: the encoder that fills an array of timer counts in place, and the interrupt that walks it;
- the edge-driven **receiver**: nine states, three timer channels, 32-bit counter arithmetic, and the decision when a waiting
  frame may start;
- the **serial front end**: the byte interrupt with its two line buffers, and the hexadecimal command grammar;

and proves what holds over all of their inputs and runs.

## How it is built

| file | content |
|---|---|
| `Dali.dfy` | constants and frame types |
| `Biphase.dfy` | biphase coding on bit sequences, the reference for encoder and decoder |
| `Encoder.dfy`, `TxSpec.dfy` | the counts of a frame in closed form; the transmit timer as a state machine on values |
| `Transmitter.dfy` | class `Tx`: the struct `tx`, its array and the timer |
| `RxSpec.dfy` | the receiver as a state machine on values, one function for each C function |
| `Receiver.dfy`, `Driver.dfy` | class `Rx`: the struct `rx`; class `Dali101`: both linked together |
| `Runs.dfy` | runs of events, and what every step keeps |
| `Decoder.dfy`, `Loopback.dfy` | the decoder against biphase coding; what is sent is what is received |
| `Excursions.dfy`, `Reports.dfy` | what is reported over whole runs; what the reports of failures, held lines and refused calls say |
| `WrapInvariance.dfy` | shifted counters |
| `Settling.dfy`, `MainLoop.dfy` | settling times and arbitration; the idle report |
| `Queries.dfy`, `QueryRuns.dfy` | queries: what every run keeps; two runs of a query in true time |
| `Repeats.dfy`, `RepeatRuns.dfy` | repeated frames: what every run keeps; the runs in which every copy is sent and received |
| `Uart.dfy`, `Commands.dfy`, `EndToEnd.dfy` | line assembly; command parsers; from typed bytes to the received frame |

The methods of the classes are proved equal to the functions of `TxSpec`, `RxSpec` and `Uart`: `Rx` has one method for each
function of dali_101_rx.c, and its contract is the function of the same name in `RxSpec`. The constructor of `Dali101` makes
the first world of a run, and its methods Send, TxTimerMatch, Capture, StopMatch, PeriodMatch and QueryMatch are the
steps; so the lemmas about runs hold of the class.

Hypotheses on the environment:

- the line level flips at every capture, and each notification is handled before the next event (`Runs.Run`);
- the interrupt of the transmit timer sets the next match before the counter passes it, so a match happens at its count;
- in runs with true time (`Runs.Timed`) a capture records the time and a match interrupt comes when the counter shows its
  count; where a theorem needs that no match is missed, it asks for `Runs.Punctual`: every event is handled before the next
  one, and the next one comes no later than the count of any armed channel (`QueryRuns.QueryTimesOut` is such a run);
- `pdTICKS_TO_MS(xTaskGetTickCount())` is the parameter `tick`, the receive timer's count when a handler reads it is `now`,
  the level of the receive pin is the parameter `pin` (or `active`);
- the error frame of a transmitter call that fails (a frame of more than 32 bits, a sequence that is full or empty) is in the
  contracts of `Driver.Dali101`; the runs of `Runs` contain no such call.

## Where the code does not do what it says

Each of these is proved, with the exact condition under which the promise does hold.

- **Repeats on a shared bus.** A frame with repeat r is transmitted r + 1 times, less once for every reception that ends
  while a copy waits, the transmitter is claimed and repeats are left: such a reception takes a copy away
  (`Repeats.RepeatsExact`, `Repeats.RepeatsUndisturbed`; `Repeats.CopyCanBeLost` is a run from boot in which two of three
  copies go out).
- **Counter wrap when sending.** The two comparisons of counts for a frame sent in the inter-frame idle time are not modular.
  The frame gets what it should if and only if no wrap of the counter lies between now and the end of its settling time, nor,
  if it has to wait and is not of the lowest priority, between that and the end of the inter-frame idle time
  (`Settling.SendDecision`). `Settling.EarlyStart` is a frame that starts 10.5 ms early, `Settling.LateStart` one that is
  put off by 6 ms. Everything else is indifferent to the counter, and so are these frames where they meet no wrap
  (`WrapInvariance.ShiftedRun`).
- **A settling time that is over already.** The period channel is armed modulo the counter: if the handler reads the counter
  behind the target, the match comes only when the counter has gone round, after 71 minutes (`Settling.ScheduledInTime` has
  the exact condition, `Settling.BackToBackMissed` an input). A corrupt frame that waits through a reception always meets this
  (`Settling.CorruptMissed`).
- **An answer or a timeout.** A query yields exactly one of the two unless a reception goes on from the end of its stop phase
  until 13.4 ms after it: then, and only then, the match is dropped and it yields neither (`Queries.ExactlyOne`,
  `Queries.DroppedExactly`; `QueryRuns.QueryCanBeDropped` is a run from boot in which the line is held active meanwhile).
- **"Transmission active or pending".** `dali_101_tx_is_idle` is true while a first copy waits, and can be while the last one
  does; it is the whole truth exactly when nothing waits (`MainLoop.IdleExact`, `MainLoop.PendingLooksIdle`). Under the guard
  of the main task nothing is left to transmit of a frame when the next one takes its place, if and only if nothing waits at
  that moment (`MainLoop.GuardedSend`). At the end of a copy that is not the last one, idle is reported if and only if the stop
  condition comes before the last timer match and one repeat is left (`MainLoop.CopyHidden`); `MainLoop.SecondCopyDropped` is,
  for every frame with repeat 1, a run on an unshared bus in which the second copy is dropped. A frame sent while another
  waits replaces it, unless it is sent in the inter-frame idle time and the comparison finds its settling time over: then it
  starts at once, the mark of the waiting one stays, and exactly one copy too many is sent (`MainLoop.FrameReplaced`).
- **A refused call.** It makes the receiver deaf: frames that begin after it are not received until the next stop condition
  has ended the error (`Reports.RefusalReported`, `Reports.DeafAfterRefusal`). In the inter-frame idle time its report carries
  the time 0.
- **A held line.** The time in its report is corrected by the value of the last bit instead of the level: it is 32 us too low
  if the line is held active in the second half of a bit, and right in the first half (`Reports.HeldLineReported`).
- **Range check of the data.** Data equal to 2^length passes the check and is sent as 0 (`Commands.RangeCheck`,
  `Commands.FrameParsed`). Priority, length and repeat count are checked modulo 256, after numbers above 2^32 - 1 have been cut
  off to 2^32 - 1.
- **An empty line** is not ignored: the letter of the line before last is still in its buffer. After I and X the same is sent
  or executed again, after Y an answer 0 is sent (`EndToEnd.EmptyLineRepeats`).
- `doc/commands.md` gives queries a priority 6; the code turns it into a frame of no type, which is not sent
  (`Commands.FrameParsed`).
- The period interrupt disables the stop-bit channel instead of its own (`source/dali_101_lpc/dali_101_rx.c:102-108`); that is
  without consequence (`Reports.WrongChannelHarmless`). After an end of line the write index is 1, not 0
  (`source/serial.c:350-356`, `Uart.EndFed`).

## Model

| member | source | states |
|---|---|---|
| Biphase.BitsAt | source/dali_101_lpc/dali_101_tx.c:126-130 | bit k of the frame, most significant first, is the bit that `data & (1 << i)` tests |
| Biphase.BitsValue | source/dali_101_lpc/dali_101_tx.c:126-130 | the bits sent, read back as a number, are data modulo 2^length |
| Biphase.PatternIsManchester | source/dali_101_lpc/dali_101_tx.c:70-84 | merging phases at value changes keeps the code: sampling the phases once per half bit gives the Manchester code of the start bit and the data |
| Biphase.ManchesterIsPattern | source/dali_101_lpc/dali_101_tx.c:70-84 | no other sequence of half and full phases has those samples |
| Biphase.PatternInjective | source/dali_101_lpc/dali_101_rx.c:226-266 | a waveform spells at most one bit sequence |
| Biphase.FirstBreak | source/dali_101_lpc/dali_101_rx.c:235-266 | a broken scan stops at the first phase that fits no bit sequence at all, and keeps the bits before it |
| Encoder.MidBitEdge | source/dali_101_lpc/dali_101_tx.c:48-84 | closed form: the mid-bit edge of bit k is at 393 + 834k less the changes so far, less 24 for a 0; it stays within [369+833k, 393+834k] |
| Encoder.FrameShape | source/dali_101_lpc/dali_101_tx.c:6-134 | the number of phases is 2 + 2n - c - [c even], always odd, and fits the array for n up to 32 |
| Encoder.FrameCountsIncrease | source/dali_101_lpc/dali_101_tx.c:48-134 | the counts strictly increase, through the stop phase |
| Transmitter.Tx.Reset | source/dali_101_lpc/dali_101_tx.c:36-46 | the transmitter is idle with an empty array, the line and timer off if they were in use |
| Transmitter.Tx.AddSignalPhase | source/dali_101_lpc/dali_101_tx.c:48-68 | appends or rewrites one count, corrected by the parity of the index before it is decremented; fails exactly when the index is at the end |
| Transmitter.Tx.AddBit | source/dali_101_lpc/dali_101_tx.c:70-84 | extends the phases of the array by two halves or by a full and a half, and fails exactly when they do not fit |
| Transmitter.Tx.AddStopCondition | source/dali_101_lpc/dali_101_tx.c:86-100 | turns the phases of the bits into the phases of the whole frame, whichever the last bit is |
| Transmitter.Tx.AddDataBits | source/dali_101_lpc/dali_101_tx.c:126-130 | the loop over the data bits leaves exactly the biphase phases of the bits in the array |
| Transmitter.Tx.AddCorruptPhases | source/dali_101_lpc/dali_101_tx.c:113-124 | the loop over the phases of a corrupt frame |
| Transmitter.Tx.CalculateCounts | source/dali_101_lpc/dali_101_tx.c:102-134 | the array holds the cumulative durations of the frame's biphase pattern and stop phase; overflow never happens; only length > 32 is refused |
| Transmitter.Tx.LoadFrame | source/dali_101_lpc/dali_101_tx.c:176-189 | reset, encode, query mark and repeats: the transmitter becomes `TxSpec.Load` of its old state |
| Transmitter.Tx.TimerStop | source/board/dali.c:27-31 | timer off, no toggling |
| Transmitter.Tx.TimerNext | source/board/dali.c:33-39 | the next match; toggling may be disabled |
| Transmitter.Tx.TimerSetup | source/board/dali.c:41-64 | the line goes active and toggles at every match |
| Transmitter.Tx.IrqCallback | source/dali_101_lpc/dali_101_tx.c:136-154 | one step of the timer state machine, and whether the query timer is to be armed |
| Transmitter.Tx.TimerMatch | source/board/dali.c:66-72 | the pin toggles in hardware, then the callback runs |
| Transmitter.Tx.StartSend | source/dali_101_lpc/dali_101_tx.c:156-160 | hands the array to the timer |
| Transmitter.Tx.TryRepeat | source/dali_101_lpc/dali_101_tx.c:167-174 | takes one repeat if there is one |
| Transmitter.Tx.SequenceStart | source/dali_101_lpc/dali_101_tx.c:194-198 | an empty sequence, no repeats |
| Transmitter.Tx.SequenceNext | source/dali_101_lpc/dali_101_tx.c:200-203 | the array holds the corrected counts of one period more, also while a transmission is under way; fails exactly when 67 are entered |
| Transmitter.Tx.SequenceExecute | source/dali_101_lpc/dali_101_tx.c:205-213 | starts what was entered; fails exactly when there is nothing |
| TxSpec.TransmissionRun | source/dali_101_lpc/dali_101_tx.c:136-160 | after a start exactly index_max + 1 callbacks; the line changes at exactly count[0..index_max], once more at the end if it would stay active; the hardware toggles the pin at all matches but the last; then it is idle, and the transmitter free exactly when no repeat is left |
| TxSpec.FrameOnTheLine | source/dali_101_lpc/dali_101_tx.c:102-160 | on the line a frame is one phase for each phase of its biphase pattern, of 393, 441, 857 or 809 us |
| TxSpec.StopOnTheLine | source/dali_101_lpc/dali_101_tx.c:86-160 | behind the last edge of a frame the transmitter is busy for 2426 us if the last bit is a 1, for 2474 us if it is a 0 |
| RxSpec.BeginBit | source/dali_101_lpc/dali_101_rx.c:235-250 | an edge in the first half of a bit: the bit is taken, or one error frame with the bit number and the time |
| RxSpec.InsideBitCases | source/dali_101_lpc/dali_101_rx.c:252-266 | an edge inside a bit: half, full with the bit inverted, or one error frame |
| Runs.InvStep | source/dali_101_lpc/dali_101_rx.c:349-462 | every event keeps: line level and believed bit agree with the status, the period channel is armed only while listening, the stop channel stands for the last edge, no repeats are left when idle with nothing waiting |
| Runs.InvFromBoot | source/dali_101_lpc/dali_101_rx.c:493-512 | so this holds at every moment of every run from boot |
| Runs.EdgeBefore | source/dali_101_lpc/dali_101_rx.c:356-412 | `last_edge_count` is the count of the last captured edge, since which the level is unchanged |
| Decoder.ClassifyExact | source/dali_101_lpc/dali_101_rx.c:210-233 | the modular corrected difference falls into a window (325 to 508, 658 to 1008) exactly when the true elapsed time, plus or less 16, does; underflow included |
| Decoder.HearEdge | source/dali_101_lpc/dali_101_rx.c:356-384 | after every edge the receiver knows exactly what the edges so far spell |
| Decoder.FaultInNumbers | source/dali_101_lpc/dali_101_rx.c:154-170 | what an error frame says in arithmetic: the elapsed time of the faulty phase, corrected by 16, in the upper 24 bits of the data, the bit number in the lower 8, length 0, the time and loopback mark of the start edge |
| Decoder.ReceptionOutcome | source/dali_101_lpc/dali_101_rx.c:226-428 | soundness and completeness: any edges up to an idle stop condition queue one frame, good if and only if the phases are the waveform of a bit sequence, which it then holds (length mod 256, value mod 2^32); otherwise the error names the first phase that fits no waveform, by its time in microseconds less or plus 16 (mod 2^24) and the number of bits before it |
| Loopback.NoEarlyStop | source/dali_101_lpc/dali_101_rx.c:83-100 | in timed runs no stop condition is seen while edges come closer than 2400 us |
| Loopback.JitterTolerated | source/dali_101_lpc/dali_101_rx.c:48-59 | every phase of a frame is recognised with up to 83 us of error |
| Loopback.JitterTight | source/dali_101_lpc/dali_101_rx.c:48-59 | 84 us is too much |
| Loopback.RoundTrip | source/dali_101_lpc/dali_101_rx.c:356-428 | every frame of 0..32 bits, through encoder, timer, a line with 83 us of jitter, and decoder: exactly one good frame, same length, data mod 2^length, no error |
| Loopback.TransmissionHeard | source/dali_101_lpc/dali_101_rx.c:83-100 | from every listening receiver and for every jitter the run that the round trip speaks of exists |
| Loopback.CorruptRejected | source/dali_101_lpc/dali_101_tx.c:113-124 | a corrupt frame always gives exactly one data timing error, in the second bit, with a time between 1409 and 1575 us and no data |
| Loopback.WindowExact | source/dali_101_lpc/dali_101_rx.c:210-233 | on a zero-delay wire active periods are half bits exactly in [333,516], idle ones exactly in [317,500]; full bits in [666,1016] and [650,1000] |
| Loopback.SequenceTolerance | source/dali_101_lpc/dali_101_tx.c:194-213 | an executed sequence of up to 67 periods is received as a good frame if and only if its periods, through those windows, are the waveform of a bit sequence |
| Excursions.StepReports | source/dali_101_lpc/dali_101_rx.c:154-462 | every step follows the state diagram: which status leads to which, with which frame queued |
| Excursions.ExcursionReportedOnce | source/dali_101_lpc/dali_101_rx.c:349-453 | from leaving the listening states to returning: one good frame and no error, or one to three error frames and no good one |
| Excursions.ErrorIsFinal | source/dali_101_lpc/dali_101_rx.c:349-354 | within an excursion an error never leads back to a bit state |
| Excursions.OutagesAlternate | source/dali_101_lpc/dali_101_rx.c:398-452 | over every run from boot, failure and recovery reports alternate; a recovery comes first exactly if the bus was active at boot |
| Excursions.FailureIsLate | source/dali_101_lpc/dali_101_rx.c:441-452 | a failure is reported only when the line has been active for 500000 us since the last edge |
| Excursions.TwiceOverRun | source/dali_101_lpc/dali_101_rx.c:268-293 | over every run, a data frame is marked twice exactly if the data frame before it is equal and started less than 95 ms earlier |
| Reports.HeldActive | source/dali_101_lpc/dali_101_rx.c:441-452 | a stop match on an active line: the receiver waits for a failure 500000 us behind the last edge, and keeps what it has heard |
| Reports.FailureReported | source/dali_101_lpc/dali_101_rx.c:441-446 | a failure frame has no data and the time at which the line went active, 500 ms earlier |
| Reports.ReleaseReported | source/dali_101_lpc/dali_101_rx.c:387-396 | a line that comes back before: one error frame, of the data if more than one bit had been received, else of the start bit; with that number of bits, and the time the line was active in the upper 24 bits |
| Reports.RecoveryReported | source/dali_101_lpc/dali_101_rx.c:398-410 | a recovery frame has the time of the recovery, the time the line was active in the upper 24 bits, and bit number 0 |
| Reports.HeldLineReported | source/dali_101_lpc/dali_101_rx.c:356-396 | over runs, from the start edge to the release: a line held active is reported as a data timing error if and only if the edges before spelled more than one bit, and otherwise as a start timing error; the time is that since the last edge, plus 16 us in the first half of a bit and less 16 us in the second |
| Reports.RefusalReported | source/dali_101_lpc/dali_101_rx.c:154-170 | a refused call gives one error frame without data, with the time that the status calls for; none in an error |
| Reports.DeafAfterRefusal | source/dali_101_lpc/dali_101_rx.c:349-354 | after a refused call an edge is not received |
| Reports.WrongChannelHarmless | source/dali_101_lpc/dali_101_rx.c:102-108 | the period interrupt comes only while the receiver listens, when a match of the channel that it disables would do nothing |
| WrapInvariance.CountOrder | source/dali_101_lpc/dali_101_rx.c:313-320 | comparing two counts tells which moment is later exactly if no wrap lies between them |
| WrapInvariance.Compared | source/dali_101_lpc/dali_101_rx.c:313-320 | for a frame that meets no wrap the comparisons say: settling time over; due before the end of the idle time |
| WrapInvariance.ShiftStep | source/dali_101_lpc/dali_101_rx.c:83-462 | a step of a receiver with shifted counts is the step, shifted |
| WrapInvariance.ShiftedRun | source/dali_101_lpc/dali_101_rx.c:83-462 | so shifting all counts of a run changes no status and no queued frame, if no frame sent in the inter-frame idle time meets a wrap |
| Settling.ScheduledDue | source/dali_101_lpc/dali_101_rx.c:181-189 | whatever the counter says, the armed count is the settling time or up to 100 us behind it, exactly the settling time unless less than 100 us are left |
| Settling.ScheduledInTime | source/dali_101_lpc/dali_101_rx.c:181-189 | in true time the match comes at the target, or 100 us from now if that is later, if and only if the target is not past; otherwise a whole round of the counter later |
| Settling.ArmedAhead | source/dali_101_lpc/dali_101_rx.c:181-189 | whatever sets the period channel sets it at least 100 us ahead of the counter, so that the timer does not miss it; only stop conditions and calls do |
| Settling.BackToBackMissed | source/dali_101_lpc/dali_101_rx.c:181-189 | a back-to-back frame handled 51 us late is put off by a round of the counter |
| Settling.CorruptMissed | source/dali_101_lpc/dali_101_rx.c:140-189 | a corrupt frame that waits through a reception always misses its match: it comes a round of the counter after the last edge |
| Settling.SettlingRespected | source/dali_101_lpc/dali_101_rx.c:172-328 | in every timed run whose frames are sent when nothing waits and meet no wrap: a frame of any type released from the idle time starts, in true time, at or after last edge plus 13500, 14900, 16300, 17900, 19500 us by priority, 2450 us back to back, 0 if corrupt; by the period match at most 100 us after that unless the counter has gone round |
| Settling.WaitingType | source/dali_101_lpc/dali_101_rx.c:305-347 | the type that the settling time goes by is that of the frame sent, also for its repeats and after receptions in between |
| Settling.FullFrameBefore | source/dali_101_lpc/dali_101_rx.c:284-293 | over every run, `last_full_frame_count` is the count of the last edge of the last data frame; 0 if there was none. Only a stop condition that ends a data frame changes it |
| Settling.FrameSettled | source/dali_101_lpc/dali_101_rx.c:172-328 | from the frame sent, in such a run: every start in the idle time comes at or after its settling time behind the last edge; that of an answer 5500 us or more behind the last edge of the last data frame |
| Settling.AppointmentKept | source/dali_101_lpc/dali_101_rx.c:295-328 | a waiting frame keeps its period match until an edge or another send |
| Settling.StartsInTime | source/dali_101_lpc/dali_101_rx.c:181-189 | the 100 us bound without exception: if no match is missed, a frame of any type whose appointment was made before its settling time was over starts within 100 us of it |
| Settling.StartDecision | source/dali_101_lpc/dali_101_rx.c:313-319 | for every type of frame: the first comparison decides rightly if and only if no wrap lies between now and the due count |
| Settling.SendDecision | source/dali_101_lpc/dali_101_rx.c:313-327 | both comparisons: the frame starts at once or waits for the right match if and only if no wrap lies between now, due count and, for priorities 1 to 4, end of the idle time |
| Settling.EarlyStart | source/dali_101_lpc/dali_101_rx.c:313-319 | a concrete frame that starts 10.5 ms too early |
| Settling.LateStart | source/dali_101_lpc/dali_101_rx.c:320-327 | a concrete frame that waits for 19.5 ms instead of 13.5 ms |
| Settling.PriorityWins | source/dali_101_lpc/dali_101_rx.c:118-144 | two timed runs with the same last edge, both with a frame waiting: the period match of the worse priority comes at least 1300 us (1400 us) after the better one has started |
| Settling.Arbitration | source/dali_101_lpc/dali_101_rx.c:295-369 | so if the other device hears an edge less than 1300 us after that start, it has not started, starts nothing during the reception and keeps its frame waiting |
| Settling.LoserDefers | source/dali_101_lpc/dali_101_rx.c:358-369 | a device that hears a start edge starts nothing until the reception is over, keeps its frame waiting, and is armed again after it |
| Repeats.Conservation | source/dali_101_lpc/dali_101_rx.c:338-347 | over every run copies sent, waiting, to come and lost add up to what was accepted; the counts stay the same |
| Repeats.RepeatsExact | source/dali_101_lpc/dali_101_rx.c:295-347 | a frame that has run to its end was transmitted r + 1 times less the copies lost |
| Repeats.WaitingSince | source/dali_101_lpc/dali_101_rx.c:338-347 | a copy waits behind a transmission only because a reception ended since it started |
| Repeats.RepeatsUndisturbed | source/dali_101_lpc/dali_101_rx.c:295-347 | in every run that comes to the idle driver, if between two receptions there is always a transmission: exactly r + 1 transmissions (that such runs exist is `RepeatRuns.RepeatsComplete`) |
| Repeats.CopyOnTheLine | source/dali_101_lpc/dali_101_tx.c:156-189 | every transmission that starts for an accepted frame, first or repeated, puts the edges of that frame on the line |
| RepeatRuns.RepeatsComplete | source/dali_101_lpc/dali_101_rx.c:295-347 | for every encodable frame, every r and every order of the two events at the end of each copy, a timed run exists from the send to the idle driver, undisturbed, with exactly r + 1 transmissions and r + 1 good frames received |
| Repeats.EitherOrder | source/dali_101_lpc/dali_101_tx.c:146-153 | at the end of a copy the stop condition and the last timer match may come in either order: same idle driver, or same next copy |
| Repeats.CopyCanBeLost | source/dali_101_lpc/dali_101_rx.c:338-347 | a run from boot in which a frame with repeat 2 is transmitted twice |
| Queries.QueryArmed | source/dali_101_lpc/dali_101_rx.c:330-336 | the end of a query's stop phase arms the query channel 13400 us ahead |
| Queries.QuerySent | source/dali_101_lpc/dali_101_tx.c:146-151 | from the frame sent, in every run: either no stop phase has ended and the query mark is set, or exactly one has, and the mark is clear from then on |
| Queries.MarkSent | source/dali_101_lpc/dali_101_tx.c:176-189 | a frame sent sets the query mark if it is a query, leaves it if it is not, and leaves the query channel and the queue |
| Queries.OnlyQueriesTimeOut | source/dali_101_lpc/dali_101_tx.c:136-154 | over every run, from a moment at which no query is marked or open, as long as no query is sent: the mark stays clear, no stop phase ends as that of a query, the channel stays off, no timeout is reported |
| Queries.NoTimeoutFromBoot | source/dali_101_lpc/dali_101_rx.c:197-208 | a run from boot that sends no query has no timeout |
| Queries.QueryOutcome | source/dali_101_lpc/dali_101_rx.c:197-208 | an armed query is open, or answered by a start edge without a timeout, or timed out once outside any reception, when exactly the empty timeout frame is queued; never two of these |
| Queries.DroppedExactly | source/dali_101_lpc/dali_101_rx.c:197-208 | a query yields neither answer nor timeout if and only if a reception goes on from the end of its stop phase until its match |
| Queries.ExactlyOne | source/dali_101_lpc/dali_101_rx.c:197-369 | from the frame sent, if no match is missed: a query is unsent, or at most 13400 us old, or over: an answer within 13400 us of its stop phase and no timeout, or one timeout exactly then, which queues one frame with no data, length 0, no loopback mark and the time of the match; or neither, if and only if a reception goes on from the end of the stop phase until then |
| Queries.TimeoutTime | source/dali_101_lpc/dali_101_rx.c:330-336 | the timeout comes 13400 us after the end of the stop phase |
| QueryRuns.QueryTimesOut | source/dali_101_lpc/dali_101_rx.c:197-208 | a run from boot in true time, no match missed, with one timeout, and its frame |
| QueryRuns.QueryCanBeDropped | source/dali_101_lpc/dali_101_rx.c:197-208 | such a run with neither answer nor timeout: the line is held active from before the end of the stop phase |
| MainLoop.IdleExact | source/dali_101_lpc/dali_101_tx.c:162-165 | the idle report is the whole truth exactly when no frame waits |
| MainLoop.FrameReplaced | source/dali_101_lpc/dali_101_tx.c:176-192 | a frame sent while another waits replaces it, exactly unless its settling time is over in the inter-frame idle time; then exactly one copy too many is sent |
| MainLoop.GuardedSend | source/main.c:33-37 | over runs under the guard: when the next frame is sent, all copies of the one before have been transmitted or lost if and only if nothing waits |
| MainLoop.CopyHidden | source/dali_101_lpc/dali_101_tx.c:152-165 | at the end of a copy with repeats left the next copy waits, and idle is reported if and only if the stop condition came first and one repeat was left |
| MainLoop.SecondCopyDropped | source/main.c:33-37 | for every frame with repeat 1 and every next frame: a timed run under the guard, whose only edges are the echo of the own first copy, in which the next frame takes the place of the second copy |
| MainLoop.PendingLooksIdle | source/main.c:27-36 | a run from boot in which a frame waits and idle is reported |
| Receiver.Rx.constructor | source/dali_101_lpc/dali_101_rx.c:493-512 | listens on an idle line, in failure on an active one |
| Receiver.Rx.QueueError | source/dali_101_lpc/dali_101_rx.c:154-170 | one error frame with code, time and bit, unless in error already |
| Receiver.Rx.ReceivedTwice | source/dali_101_lpc/dali_101_rx.c:268-282 | compares with the last data frame and remembers this one |
| Receiver.Rx.ScheduleTransmission | source/dali_101_lpc/dali_101_rx.c:305-328 | starts at once, re-arms, or waits; receiver and transmitter together |
| Receiver.Rx.ProcessCapture | source/dali_101_lpc/dali_101_rx.c:356-412 | the reaction to an edge, and the edge remembered |
| Receiver.Rx.ProcessMatch | source/dali_101_lpc/dali_101_rx.c:414-453 | the reaction to a stop-bit match |
| Driver.Dali101.constructor | source/dali_101_lpc/dali_101_rx.c:514-518 | the driver is in the first world of every run: both halves initialised, listening on an idle line, in failure on an active one |
| Driver.Dali101.Send | source/dali_101_lpc/dali_101_tx.c:176-192 | a frame of up to 32 bits is loaded and scheduled; a longer one is a bad argument |
| Driver.Dali101.TxTimerMatch | source/dali_101_lpc/dali_101_tx.c:136-154 | the timer step and the query timer together |
| Driver.Dali101.Capture | source/dali_101_lpc/dali_101_rx.c:83-92 | interrupt and notification of an edge |
| Driver.Dali101.StopMatch | source/dali_101_lpc/dali_101_rx.c:94-100 | interrupt and notification of a stop-bit match |
| Driver.Dali101.PeriodMatch | source/dali_101_lpc/dali_101_rx.c:102-108 | interrupt and notification of a period match |
| Driver.Dali101.QueryMatch | source/dali_101_lpc/dali_101_rx.c:110-116 | interrupt and notification of a query match |
| Driver.Dali101.SequenceNext | source/dali_101_lpc/dali_101_tx.c:200-203 | one corrected count is appended, also while a transmission is under way; a full array is reported |
| Driver.Dali101.SequenceExecute | source/dali_101_lpc/dali_101_tx.c:205-213 | what was entered is transmitted; an empty sequence is reported |
| Uart.Receiver.Receive | source/serial.c:323-357 | one byte: the two buffers, the index and the delivered lines step as `Uart.Feed`; the delivered buffer is not the one being filled |
| Uart.Receiver.HandOver | source/serial.c:303-309 | the buffers are swapped |
| Uart.Receiver.Interrupt | source/serial.c:311-360 | the loop over the FIFO feeds all bytes |
| Uart.LineDelivered | source/serial.c:323-357 | in any byte stream a command letter and plain bytes up to end of line are delivered once: letter, at most 18 argument bytes, terminator; until then the other buffer is untouched |
| Uart.EndFed | source/serial.c:340-356 | what the end of a line or a question mark hands over, and which buffer is filled next from which index |
| Uart.LinesCounted | source/serial.c:311-360 | over every byte stream, exactly one line is handed over for each end of line or question mark |
| Uart.HelpDelivered | source/serial.c:340-345 | a question mark is handed over at once, alone, whatever came before |
| Commands.ConvertNumber | source/serial.c:161-164 | strtoul and strtoull: white space, a sign or none, a prefix or none and digits of either case that spell n give n, cut off at the maximum, negated behind a minus sign, and the position behind the digits |
| Commands.SpelledValue | source/serial.c:161-164 | a spelling of n, in upper or lower case, with or without leading zeros, has the value n |
| Commands.ConvertNothing | source/serial.c:161-164 | without digits nothing is converted: 0, and the position stays |
| Commands.RangeCheck | source/serial.c:145-149 | what passes is data below 2^length and 2^length itself, which is sent as 0 |
| Commands.CheckedExactly | source/serial.c:140-149 | for all numbers: the frame is queued if and only if 1 <= priority <= 6, length <= 32 and data <= 2^length as kept in their C types; otherwise a parameter error |
| Commands.FrameParsed | source/serial.c:158-194 | S and Q texts of any numbers in any spelling, legal or not, with any character between length and data that is not read as part of the length: exactly the frame meant if the numbers are legal, to be sent twice if and only if that character is a plus sign; a parameter error if they are not legal |
| Commands.RepeatedParsed | source/serial.c:215-230 | the same for R |
| Commands.BackframeParsed | source/serial.c:196-213 | Y: an answer of eight bits if the value is at most 255, otherwise a parameter error |
| Commands.PeriodParsed | source/serial.c:232-253 | W and N: the period cut off at 2^32 - 1; a parameter error if it is 0 |
| Commands.FrameRoundTrip | source/serial.c:158-194 | legal S and Q texts without leading zeros, in either case, with any such character, fit a line and are parsed to exactly the frame meant, whatever lies behind the terminator |
| Commands.RepeatedRoundTrip | source/serial.c:215-230 | the same for R with repeat 0..255 |
| EndToEnd.CommandUnderstood | source/serial.c:255-360 | whatever bytes come before, a typed command S, Q, R, Y, I, W, N or X, in any spelling that fits a line, with legal arguments or not, is delivered once and does exactly what it means |
| EndToEnd.HelpUnderstood | source/serial.c:255-345 | a question mark, whatever came before, asks for the version |
| EndToEnd.NothingWithoutLetter | source/serial.c:255-360 | from buffers without a command letter, over every stream of bytes without one, every line is ignored |
| EndToEnd.EmptyLineRepeats | source/serial.c:255-360 | an empty line executes the letter of the line before last without arguments: I and X once more, Y as an answer 0, the others as a parameter error |
| EndToEnd.TypedIsReceived | source/serial.c:158-360 | from a typed S, Q or R command with legal arguments through the main task's send, the sender's run and the line to the other device's queue: for every transmission, first or repeated, exactly one good frame with the length and data that were typed |

## Left out

- Register programming, clocks, pins, interrupt priorities, UART setup, LEDs, version text and printed messages: no logic.
- The FreeRTOS kernel: queues are logs of the frames handed to them, so a full queue (a lost error frame, the assertion on a
  data frame, status 0xA2) is not modelled; coalesced notifications and preemption inside a handler are not modelled.
- Driver.Dali101.SequenceNext: a step added to the longest transmission while it is under way leaves the array without a
  count for the end of its last phase; the contract says exactly when, and what the interrupt does then is not modelled.
- Runs: sequences entered by the user are not events of the runs; their waveform and its reception are `Loopback.SequenceTolerance`.
- Settling.SettlingRespected: says nothing of frames sent to an idle bus, and of the time after a recovery or a query timeout,
  where the code starts at once; answers are in `Settling.FrameSettled`, which has no upper bound for an answer that counts from
  an earlier edge than the last one.
- EndToEnd.TypedIsReceived: the queue between the serial task and the main task is not modelled; that the main task sends
  the frame which the serial task has queued, while nothing waits, is a hypothesis.
- Repeats.EitherOrder: is about the two orders of one stop condition and one timer match; runs in which the own transmission is
  not heard at all never ask for the next copy.
- Commands.ConvertNumber: what strtoul would read behind the end of a line buffer is taken to be a terminator.
- Rise and fall times of the line are a bounded error of each interval.
