/** What a frame looks like as timer counts: the specification of the encoder in dali_101_tx.c, and the
    facts about it that do not depend on how the array is filled. */
module Encoder {
  import opened Dali
  import opened Biphase

  /** A nominal duration, corrected for the rise and fall times by the parity of `k`. */
  function Shifted(nominal: int, k: nat): int {
    if k % 2 == 1 then nominal + TX_SHIFT else nominal - TX_SHIFT
  }

  /** Duration of phase number `k`. A half bit is corrected by its own parity; a full bit is a half
      bit that was extended later, and is corrected by the parity of the phase after it. */
  function Duration(w: Width, k: nat): int {
    match w
    case Half => Shifted(HALF_BIT, k)
    case Full => Shifted(FULL_BIT, k + 1)
    case Bad => 0
  }

  function Durations(ws: seq<Width>): (ds: seq<int>) {
    seq(|ws|, k requires 0 <= k < |ws| => Duration(ws[k], k))
  }

  /** Sum of the first `n` durations. */
  function Total(ds: seq<int>, n: nat): int
    requires n <= |ds|
  {
    if n == 0 then 0 else Total(ds, n - 1) + ds[n - 1]
  }

  /** Running sums: the counts at which the phases end. */
  function Cumulative(ds: seq<int>): seq<int> {
    seq(|ds|, k requires 0 <= k < |ds| => Total(ds, k + 1))
  }

  /** The phase that holds the line idle for the stop condition. */
  function StopDuration(bits: seq<bool>): int {
    if Last(bits) then STOP_CONDITION - TX_SHIFT else STOP_CONDITION + TX_SHIFT
  }

  function FrameDurations(bits: seq<bool>): seq<int> {
    Durations(Pattern(bits)) + [StopDuration(bits)]
  }

  /** The corrupt backward frame: half bits, one of them stretched, and a stop condition. */
  const STRETCHED := 4

  function CorruptPhase(k: nat): (d: int)
    ensures 393 <= d <= 1476
  {
    Shifted(if k == STRETCHED then CORRUPT_BIT else HALF_BIT, k)
  }

  function CorruptPhases(): (ds: seq<int>)
    ensures |ds| == 18 && forall k :: 0 <= k < 18 ==> ds[k] == CorruptPhase(k)
  {
    seq(18, k requires 0 <= k < 18 => CorruptPhase(k))
  }

  function CorruptDurations(): seq<int> {
    CorruptPhases()[..17] + [STOP_CONDITION - TX_SHIFT]
  }

  function EncodedDurations(frame: TxFrame): seq<int> {
    if frame.kind == Corrupt then CorruptDurations() else FrameDurations(Bits(frame.data, frame.length))
  }

  /** The value of the last bit added when encoding ends. */
  function LastLevel(frame: TxFrame): bool {
    if frame.kind == Corrupt then true else Last(Bits(frame.data, frame.length))
  }

  /** Time between edge `k` and the edge before it; the start edge is at 0. */
  function Gap(edges: seq<int>, k: nat): int
    requires k < |edges|
  {
    edges[k] - if k == 0 then 0 else edges[k - 1]
  }

  // ---- sums ----

  lemma {:induction false} TotalPrefix(a: seq<int>, b: seq<int>, n: nat)
    requires n <= |a| && n <= |b|
    requires forall k :: 0 <= k < n ==> a[k] == b[k]
    ensures Total(a, n) == Total(b, n)
  {
    if n > 0 { TotalPrefix(a, b, n - 1); }
  }

  lemma {:induction false} TotalBound(ds: seq<int>, n: nat, high: int)
    requires n <= |ds| && forall k :: 0 <= k < |ds| ==> 0 <= ds[k] <= high
    ensures 0 <= Total(ds, n) <= high * n
  {
    if n > 0 { TotalBound(ds, n - 1, high); }
  }

  lemma {:induction false} TotalIncreasing(ds: seq<int>, j: nat, k: nat)
    requires forall i :: 0 <= i < |ds| ==> ds[i] > 0
    requires j < k <= |ds|
    ensures 0 <= Total(ds, j) < Total(ds, k)
  {
    if j < k - 1 {
      TotalIncreasing(ds, j, k - 1);
    } else if j > 0 {
      TotalIncreasing(ds, j - 1, j);
    }
  }

  // ---- the closed form ----

  function Changes(bits: seq<bool>): nat {
    if bits == [] then 0 else
    var front := bits[..|bits| - 1];
    Changes(front) + if Last(front) == Last(bits) then 0 else 1
  }

  /** Number of phases up to the mid-bit edge that ends `bits`. */
  lemma {:induction false} MidBitIndex(bits: seq<bool>)
    ensures Changes(bits) <= |bits| && (Changes(bits) % 2 == 0 <==> Last(bits))
    ensures |ToMidBit(bits)| == 1 + 2 * |bits| - Changes(bits)
  {
    if bits != [] {
      MidBitIndex(bits[..|bits| - 1]);
    }
  }

  function MidBitTotal(bits: seq<bool>): int {
    var ws := ToMidBit(bits);
    Total(Durations(ws), |ws|)
  }

  /** Time of the mid-bit edge that ends `bits`. */
  lemma {:induction false} MidBitTime(bits: seq<bool>)
    ensures MidBitTotal(bits) == 393 + 834 * |bits| - Changes(bits) - if Last(bits) then 0 else 24
  {
    if bits == [] {
      assert Total(Durations([Half]), 1) == 393;
    } else {
      var front, b := bits[..|bits| - 1], Last(bits);
      MidBitTime(front);
      MidBitIndex(front);
      MidBitStep(front, b);
      assert bits == front + [b];
    }
  }

  lemma MidBitStep(front: seq<bool>, b: bool)
    ensures MidBitTotal(front + [b]) == MidBitTotal(front) +
                                        if Last(front) == b then 834 else if b then 857 else 809
  {
    var f, n := Durations(ToMidBit(front)), |ToMidBit(front)|;
    ToMidBitAppend(front, b);
    var g := Durations(ToMidBit(front + [b]));
    TotalPrefix(f, g, n);
    if Last(front) == b {
      assert Total(g, n + 2) == Total(g, n) + g[n] + g[n + 1];
    } else {
      assert Total(g, n + 1) == Total(g, n) + g[n];
    }
  }

  lemma {:induction false} MidBitPrefix(bits: seq<bool>, k: nat)
    requires k <= |bits|
    ensures ToMidBit(bits[..k]) <= ToMidBit(bits) <= Pattern(bits)
  {
    if k == |bits| {
      assert bits[..k] == bits;
    } else {
      var front := bits[..|bits| - 1];
      MidBitPrefix(front, k);
      assert front[..k] == bits[..k];
    }
  }

  /** The closed form of the encoder. The mid-bit edge of bit `k` (bit 0 is the start bit) is at
      393 + 834k, less one microsecond for every change of value so far, less 24 if the bit is a 0:
      neither the merging of phases nor the correction by parity adds up along the frame. */
  lemma MidBitEdge(bits: seq<bool>, k: nat)
    requires k <= |bits|
    ensures var p := bits[..k];
            var i := |ToMidBit(p)| - 1;
            && i == 2 * k - Changes(p)
            && i < |Pattern(bits)| < |FrameDurations(bits)|
            && Cumulative(FrameDurations(bits))[i] == 393 + 834 * k - Changes(p) - (if Last(p) then 0 else 24)
            && 369 + 833 * k <= Cumulative(FrameDurations(bits))[i] <= 393 + 834 * k
  {
    hide ToMidBit, Pattern, Changes;
    var p := bits[..k];
    MidBitTime(p);
    MidBitIndex(p);
    MidBitPrefix(bits, k);
    TotalPrefix(FrameDurations(bits), Durations(ToMidBit(p)), |ToMidBit(p)|);
  }

  /** The shape of an encoded frame: how many phases there are (an odd number, so that toggling leaves the
      line idle), and that they fit the array. */
  lemma FrameShape(bits: seq<bool>)
    ensures |Pattern(bits)| == 2 + 2 * |bits| - Changes(bits) - (if Changes(bits) % 2 == 0 then 1 else 0)
    ensures |Pattern(bits)| % 2 == 1
    ensures |bits| <= MAX_DATA_LENGTH ==> |FrameDurations(bits)| <= COUNT_ARRAY_SIZE - 1
  {
    MidBitIndex(bits);
  }

  lemma DurationsPositive(bits: seq<bool>, k: nat)
    requires k < |FrameDurations(bits)|
    ensures 393 <= FrameDurations(bits)[k] <= 2474
    ensures k < |Pattern(bits)| ==> FrameDurations(bits)[k] == Duration(Pattern(bits)[k], k) <= 857
  {
    var ws := Pattern(bits);
    if k < |ws| {
      assert ws[k] != Bad;
    }
  }

  /** The counts of a frame strictly increase, through the stop phase. */
  lemma FrameCountsIncrease(bits: seq<bool>, i: nat, j: nat)
    requires i < j < |FrameDurations(bits)|
    ensures 0 < Cumulative(FrameDurations(bits))[i] < Cumulative(FrameDurations(bits))[j]
  {
    var ds := FrameDurations(bits);
    forall k | 0 <= k < |ds| ensures ds[k] > 0 {
      DurationsPositive(bits, k);
    }
    TotalIncreasing(ds, 0, i + 1);
    TotalIncreasing(ds, i + 1, j + 1);
  }
}
