/** Biphase (Manchester) coding as a function on bit sequences: the reference for encoder and decoder.
    A frame is a start bit of value 1 followed by data bits; a 1 is an active half then an idle half,
    a 0 the reverse. */
module Biphase {

  // ---- numbers and bits ----

  function Pow2(n: nat): (p: nat)
    ensures p >= 1
  {
    if n == 0 then 1 else 2 * Pow2(n - 1)
  }

  function Digit(b: bool): int {
    if b then 1 else 0
  }

  /** The low `n` bits of `data`, most significant first. */
  function Bits(data: nat, n: nat): (bits: seq<bool>)
    ensures |bits| == n
  {
    if n == 0 then [] else Bits(data / 2, n - 1) + [data % 2 == 1]
  }

  function Value(bits: seq<bool>): nat {
    if bits == [] then 0 else 2 * Value(bits[..|bits| - 1]) + Digit(bits[|bits| - 1])
  }

  lemma ValueAppend(bits: seq<bool>, b: bool)
    ensures Value(bits + [b]) == 2 * Value(bits) + Digit(b)
  {
    assert (bits + [b])[..|bits|] == bits;
  }

  lemma {:induction false} BitsAt(data: nat, n: nat, k: nat)
    requires k < n
    ensures Bits(data, n)[k] == ((data / Pow2(n - 1 - k)) % 2 == 1)
  {
    if k < n - 1 {
      BitsAt(data / 2, n - 1, k);
      DivTwice(data, Pow2(n - 2 - k));
    }
  }

  lemma DivTwice(a: nat, p: nat)
    requires p >= 1
    ensures a / (2 * p) == (a / 2) / p
  {
    var q, r := (a / 2) / p, (a / 2) % p;
    assert a / 2 == q * p + r;
    assert q * (2 * p) == 2 * (q * p);
    QuotientUnique(a, 2 * p, q, 2 * r + a % 2);
  }

  lemma QuotientUnique(a: nat, d: nat, q: nat, r: nat)
    requires 0 <= r < d && a == q * d + r
    ensures a / d == q && a % d == r
  {
    var q', r' := a / d, a % d;
    assert a == q' * d + r';
    if q' < q {
      assert (q' + 1) * d <= q * d by { MulMonotone(q' + 1, q, d); }
      assert false;
    } else if q < q' {
      assert (q + 1) * d <= q' * d by { MulMonotone(q + 1, q', d); }
      assert false;
    }
  }

  lemma MulMonotone(x: nat, y: nat, d: nat)
    requires x <= y
    ensures x * d <= y * d
  {}

  /** The bits of a number, read back as a number, are the number modulo 2^n. */
  lemma {:induction false} BitsValue(data: nat, n: nat)
    ensures Value(Bits(data, n)) == data % Pow2(n)
  {
    if n > 0 {
      BitsValue(data / 2, n - 1);
      assert Bits(data, n)[..n - 1] == Bits(data / 2, n - 1);
      ModTwice(data, Pow2(n - 1));
    }
  }

  lemma ModTwice(a: nat, p: nat)
    requires p >= 1
    ensures a % (2 * p) == 2 * ((a / 2) % p) + a % 2
  {
    var q, r := (a / 2) / p, (a / 2) % p;
    assert a / 2 == q * p + r;
    assert q * (2 * p) == 2 * (q * p);
    QuotientUnique(a, 2 * p, q, 2 * r + a % 2);
  }

  // ---- waveforms ----

  /** How long a phase between two edges lasts: half a bit, a full bit, or neither. */
  datatype Width = Half | Full | Bad

  /** The last bit sent so far; the start bit counts as a 1. */
  function Last(bits: seq<bool>): bool {
    if bits == [] then true else bits[|bits| - 1]
  }

  /** Widths of the phases from the start edge up to the edge in the middle of the last bit. */
  function ToMidBit(bits: seq<bool>): (ws: seq<Width>)
    ensures |ws| >= 1 && (|ws| % 2 == 1 <==> Last(bits))
    ensures forall k :: 0 <= k < |ws| ==> ws[k] != Bad
  {
    if bits == [] then [Half] else
    var front := bits[..|bits| - 1];
    if Last(front) == Last(bits) then ToMidBit(front) + [Half, Half] else ToMidBit(front) + [Full]
  }

  /** Widths of all phases of a frame, from the start edge to the last return to idle. */
  function Pattern(bits: seq<bool>): (ws: seq<Width>)
    ensures |ws| % 2 == 1
    ensures forall k :: 0 <= k < |ws| ==> ws[k] != Bad
  {
    if Last(bits) then ToMidBit(bits) else ToMidBit(bits) + [Half]
  }

  lemma ToMidBitAppend(bits: seq<bool>, b: bool)
    ensures ToMidBit(bits + [b]) ==
            if Last(bits) == b then ToMidBit(bits) + [Half, Half] else ToMidBit(bits) + [Full]
  {
    assert (bits + [b])[..|bits|] == bits;
  }

  /** Levels of the half bits of a frame, true for active: the start bit, then the data bits. */
  function Manchester(bits: seq<bool>): seq<bool> {
    if bits == [] then [true, false] else
    Manchester(bits[..|bits| - 1]) + [Last(bits), !Last(bits)]
  }

  /** What a sampler taking one sample per half bit sees: phases alternate, the first one is active. */
  function Samples(ws: seq<Width>): seq<bool> {
    if ws == [] then [] else
    var k := |ws| - 1;
    Samples(ws[..k]) + PhaseSamples(ws[k], k)
  }

  function PhaseSamples(w: Width, k: nat): seq<bool> {
    match w
    case Half => [k % 2 == 0]
    case Full => [k % 2 == 0, k % 2 == 0]
    case Bad => []
  }

  lemma SamplesAppend(ws: seq<Width>, w: Width)
    ensures Samples(ws + [w]) == Samples(ws) + PhaseSamples(w, |ws|)
  {
    assert (ws + [w])[..|ws|] == ws;
  }

  lemma SamplesSame(f: seq<Width>, m: seq<bool>, b: bool)
    requires |f| % 2 == 1 <==> b
    requires Samples(f) + [!b] == m
    ensures Samples(f + [Half, Half]) + [!b] == m + [b, !b]
  {
    hide Samples;
    SamplesAppend(f, Half);
    SamplesAppend(f + [Half], Half);
    assert f + [Half, Half] == (f + [Half]) + [Half];
  }

  lemma SamplesChange(f: seq<Width>, m: seq<bool>, b: bool)
    requires |f| % 2 == 1 <==> !b
    requires Samples(f) + [b] == m
    ensures Samples(f + [Full]) + [!b] == m + [b, !b]
  {
    hide Samples;
    SamplesAppend(f, Full);
  }

  lemma {:induction false} SamplesToMidBit(bits: seq<bool>)
    ensures Samples(ToMidBit(bits)) + [!Last(bits)] == Manchester(bits)
  {
    if bits == [] {
      SamplesAppend([], Half);
      assert [] + [Half] == ToMidBit(bits);
    } else {
      var front, b := bits[..|bits| - 1], Last(bits);
      SamplesToMidBit(front);
      if Last(front) == b {
        SamplesSame(ToMidBit(front), Manchester(front), b);
      } else {
        SamplesChange(ToMidBit(front), Manchester(front), b);
      }
    }
  }

  /** Sampling the waveform of a frame gives its Manchester code; a final 1 leaves its idle half to the
      stop condition. */
  lemma PatternIsManchester(bits: seq<bool>)
    ensures Last(bits) ==> Samples(Pattern(bits)) + [false] == Manchester(bits)
    ensures !Last(bits) ==> Samples(Pattern(bits)) == Manchester(bits)
  {
    SamplesToMidBit(bits);
    SamplesAppend(ToMidBit(bits), Half);
  }

  ghost predicate NoBad(ws: seq<Width>) {
    forall k :: 0 <= k < |ws| ==> ws[k] != Bad
  }

  /** The last sample tells the parity, the last two the width of the last phase. */
  lemma SamplesEnd(ws: seq<Width>)
    requires NoBad(ws) && ws != []
    ensures Samples(ws) != [] && Samples(ws)[|Samples(ws)| - 1] == (|ws| % 2 == 1)
  {
    var s := PhaseSamples(ws[|ws| - 1], |ws| - 1);
    assert s != [] && s[|s| - 1] == (|ws| % 2 == 1);
    assert Samples(ws) == Samples(ws[..|ws| - 1]) + s;
  }

  lemma SamplesWidth(front: seq<Width>, w: Width, s: seq<bool>)
    requires NoBad(front) && w != Bad && s == Samples(front) + PhaseSamples(w, |front|)
    ensures w == Full <==> |s| >= 2 && s[|s| - 2] == (|front| % 2 == 0)
  {
    if front != [] {
      SamplesEnd(front);
    }
  }

  /** No two waveforms of the same parity look alike to the sampler. */
  lemma {:induction false} SamplesInjective(a: seq<Width>, b: seq<Width>)
    requires NoBad(a) && NoBad(b) && |a| % 2 == |b| % 2
    requires Samples(a) == Samples(b)
    ensures a == b
    decreases |a|
  {
    if a == [] || b == [] {
      if a != [] { SamplesEnd(a); }
      if b != [] { SamplesEnd(b); }
    } else {
      SamplesStep(a[..|a| - 1], a[|a| - 1], b[..|b| - 1], b[|b| - 1], Samples(a));
      SamplesInjective(a[..|a| - 1], b[..|b| - 1]);
    }
  }

  lemma SamplesStep(a: seq<Width>, v: Width, b: seq<Width>, w: Width, s: seq<bool>)
    requires NoBad(a) && NoBad(b) && v != Bad && w != Bad && |a| % 2 == |b| % 2
    requires s == Samples(a) + PhaseSamples(v, |a|) == Samples(b) + PhaseSamples(w, |b|)
    ensures v == w && Samples(a) == Samples(b)
  {
    SamplesWidth(a, v, s);
    SamplesWidth(b, w, s);
    var n := |s| - |PhaseSamples(v, |a|)|;
    assert Samples(a) == s[..n] && Samples(b) == s[..n];
  }

  /** The waveform of a frame is the only one whose samples are its Manchester code. */
  lemma ManchesterIsPattern(ws: seq<Width>, bits: seq<bool>)
    requires NoBad(ws) && |ws| % 2 == 1
    requires Samples(ws) == Samples(Pattern(bits))
    ensures ws == Pattern(bits)
  {
    SamplesInjective(ws, Pattern(bits));
  }

  // ---- scanning a waveform from the left ----

  /** What the phases seen so far spell: nothing yet, bits up to a mid-bit edge, bits and one more half, or
      no frame at all, because phase number `at` does not fit behind `bits`. */
  datatype Progress = Start | Inside(bits: seq<bool>) | Begin(bits: seq<bool>) | Broken(bits: seq<bool>, at: nat)

  /** Phase number `k` is seen. */
  function Advance(p: Progress, w: Width, k: nat): Progress {
    match (p, w)
    case (Start, Half) => Inside([])
    case (Start, _) => Broken([], k)
    case (Inside(bits), Half) => Begin(bits)
    case (Inside(bits), Full) => Inside(bits + [!Last(bits)])
    case (Inside(bits), Bad) => Broken(bits, k)
    case (Begin(bits), Half) => Inside(bits + [Last(bits)])
    case (Begin(bits), _) => Broken(bits, k)
    case (Broken(_, _), _) => p
  }

  function Scan(ws: seq<Width>): Progress {
    if ws == [] then Start else Advance(Scan(ws[..|ws| - 1]), ws[|ws| - 1], |ws| - 1)
  }

  lemma ScanAppend(ws: seq<Width>, w: Width)
    ensures Scan(ws + [w]) == Advance(Scan(ws), w, |ws|)
  {
    assert (ws + [w])[..|ws|] == ws;
  }

  /** What a progress report claims about the phases it was given. */
  ghost predicate Reports(p: Progress, ws: seq<Width>) {
    match p
    case Start => ws == []
    case Inside(bits) => ws == ToMidBit(bits)
    case Begin(bits) => ws == ToMidBit(bits) + [Half]
    case Broken(_, _) => true
  }

  /** The phases are a waveform up to some edge. */
  ghost predicate Fits(bits: seq<bool>, ws: seq<Width>) {
    ws == [] || ws == ToMidBit(bits) || ws == ToMidBit(bits) + [Half]
  }

  lemma ReportsNext(p: Progress, ws: seq<Width>, w: Width)
    requires Reports(p, ws)
    ensures Reports(Advance(p, w, |ws|), ws + [w])
  {
    match (p, w)
    case (Start, Half) => assert ws + [w] == ToMidBit([]);
    case (Inside(bits), Full) => ToMidBitAppend(bits, !Last(bits));
    case (Begin(bits), Half) =>
      ToMidBitAppend(bits, Last(bits));
      assert ToMidBit(bits) + [Half] + [Half] == ToMidBit(bits) + [Half, Half];
    case _ =>
  }

  /** Scanning never misreads: what it reports is what was sent. */
  lemma {:induction false} ScanSound(ws: seq<Width>)
    ensures Reports(Scan(ws), ws)
  {
    if ws != [] {
      hide Reports;
      var front, w := ws[..|ws| - 1], ws[|ws| - 1];
      ScanSound(front);
      ReportsNext(Scan(front), front, w);
      assert ws == front + [w];
    }
  }

  /** Scanning misses nothing: every bit sequence is reported. */
  lemma {:induction false} ScanComplete(bits: seq<bool>)
    ensures Scan(ToMidBit(bits)) == Inside(bits)
    ensures Scan(ToMidBit(bits) + [Half]) == Begin(bits)
  {
    if bits == [] {
      ScanAppend([], Half);
      assert [] + [Half] == ToMidBit(bits);
    } else {
      var front, b := bits[..|bits| - 1], Last(bits);
      ScanComplete(front);
      ScanCompleteStep(front, b);
      assert bits == front + [b];
    }
    ScanAppend(ToMidBit(bits), Half);
  }

  lemma ScanCompleteStep(front: seq<bool>, b: bool)
    requires Scan(ToMidBit(front)) == Inside(front)
    ensures Scan(ToMidBit(front + [b])) == Inside(front + [b])
  {
    hide Scan, ToMidBit;
    var f := ToMidBit(front);
    ToMidBitAppend(front, b);
    if Last(front) == b {
      ScanAppend(f, Half);
      ScanAppend(f + [Half], Half);
      assert f + [Half] + [Half] == f + [Half, Half];
    } else {
      ScanAppend(f, Full);
    }
  }

  /** A whole frame is scanned back to its bits. */
  lemma ScanPattern(bits: seq<bool>)
    ensures Scan(Pattern(bits)) == if Last(bits) then Inside(bits) else Begin(bits)
  {
    ScanComplete(bits);
    assert ToMidBit(bits) + [] == ToMidBit(bits);
  }

  /** A waveform spells at most one bit sequence. */
  lemma PatternInjective(a: seq<bool>, b: seq<bool>)
    requires Pattern(a) == Pattern(b)
    ensures a == b
  {
    ScanPattern(a);
    ScanPattern(b);
  }

  lemma FitsScan(bits: seq<bool>, ws: seq<Width>)
    requires Fits(bits, ws)
    ensures !Scan(ws).Broken?
  {
    if ws != [] { ScanComplete(bits); }
  }

  lemma ScanFits(ws: seq<Width>)
    requires !Scan(ws).Broken?
    ensures Fits(if Scan(ws).Start? then [] else Scan(ws).bits, ws)
  {
    ScanSound(ws);
  }

  lemma FirstBreakStep(front: seq<Width>, ws: seq<Width>)
    requires ws != [] && front == ws[..|ws| - 1] && Scan(ws).Broken?
    ensures if Scan(front).Broken? then Scan(ws) == Scan(front)
            else Scan(ws) == Broken(if Scan(front).Start? then [] else Scan(front).bits, |front|)
  {}

  /** A broken scan names the first phase that fits no bit sequence, and the bits before it. */
  lemma {:induction false} FirstBreak(ws: seq<Width>)
    requires Scan(ws).Broken?
    ensures var Broken(bits, at) := Scan(ws);
            && at < |ws| && Fits(bits, ws[..at])
            && var through := ws[..at + 1]; forall more :: !Fits(more, through)
  {
    hide Fits, Advance;
    var front := ws[..|ws| - 1];
    assert Scan(ws) == Advance(Scan(front), ws[|ws| - 1], |front|);
    FirstBreakStep(front, ws);
    hide Scan;
    if Scan(front).Broken? {
      FirstBreak(front);
      var at := Scan(ws).at;
      assert front[..at] == ws[..at] && front[..at + 1] == ws[..at + 1];
    } else {
      ScanFits(front);
      assert ws[..|ws|] == ws;
      forall more ensures !Fits(more, ws) {
        if Fits(more, ws) { FitsScan(more, ws); }
      }
    }
  }

  /** When the line has just returned to idle (an odd number of phases), a scan that is not broken has
      spelled a whole frame: no truncated bit. */
  lemma ScanAtIdle(ws: seq<Width>)
    requires |ws| % 2 == 1
    ensures !Scan(ws).Broken? ==> (Scan(ws).Inside? || Scan(ws).Begin?) && ws == Pattern(Scan(ws).bits)
  {
    hide Scan, ToMidBit;
    ScanSound(ws);
  }
}
