/** The command parsers of serial.c, on the text behind the command letter. strtoul and strtoull are modelled
    after section 7.22.1.4 of ISO/IEC 9899:2011, with 32-bit long and 64-bit long long, base 16. */
module Commands {
  import opened Dali
  import opened Biphase
  import opened Uart

  // ---- strtoul, strtoull ----

  predicate Space(c: char) {
    c == ' ' || 9 <= c as int <= 13
  }

  predicate HexDigit(c: char) {
    '0' <= c <= '9' || 'A' <= c <= 'F' || 'a' <= c <= 'f'
  }

  function DigitValue(c: char): (d: nat)
    ensures d < 16
  {
    if '0' <= c <= '9' then c as int - '0' as int
    else if 'A' <= c <= 'F' then c as int - 'A' as int + 10
    else if 'a' <= c <= 'f' then c as int - 'a' as int + 10
    else 0
  }

  function HexValue(digits: string): nat {
    if digits == "" then 0 else 16 * HexValue(digits[..|digits| - 1]) + DigitValue(digits[|digits| - 1])
  }

  /** The character at `i`; behind the text a terminator. */
  function At(text: string, i: nat): char {
    if i < |text| then text[i] else NUL
  }

  function SkipSpaces(text: string, i: nat): (j: nat)
    requires i <= |text|
    ensures i <= j <= |text|
    decreases |text| - i
  {
    if i < |text| && Space(text[i]) then SkipSpaces(text, i + 1) else i
  }

  function SkipDigits(text: string, i: nat): (j: nat)
    requires i <= |text|
    ensures i <= j <= |text|
    decreases |text| - i
  {
    if i < |text| && HexDigit(text[i]) then SkipDigits(text, i + 1) else i
  }

  /** A converted number and the position behind it. */
  datatype Number = Number(value: nat, end: nat)

  const ULONG_MAX: nat := 0xFFFF_FFFF
  const ULLONG_MAX: nat := 0xFFFF_FFFF_FFFF_FFFF

  /** White space, a sign, a prefix 0x before a digit, digits; without digits nothing is converted. Too large
      numbers give the maximum, a minus sign negates modulo the maximum plus one. */
  function Convert(text: string, from: nat, max: nat): (n: Number)
    requires from <= |text|
    ensures from <= n.end <= |text| && n.value <= max
  {
    var start := SkipSpaces(text, from);
    var minus := At(text, start) == '-';
    var sign := if minus || At(text, start) == '+' then start + 1 else start;
    var prefix := At(text, sign) == '0' && (At(text, sign + 1) == 'x' || At(text, sign + 1) == 'X')
                  && HexDigit(At(text, sign + 2));
    var first := if prefix then sign + 2 else sign;
    var end := SkipDigits(text, first);
    if end == first then Number(0, from) else
    var value := HexValue(text[first..end]);
    Number(if value > max then max else if minus then (max + 1 - value) % (max + 1) else value, end)
  }

  // ---- the parsers ----

  predicate PriorityOrLengthIllegal(priority: Byte, length: Byte) {
    length > MAX_DATA_LENGTH || priority < 1 || priority > 6
  }

  predicate DataIllegal(data: nat, length: Byte) {
    data >= Pow2(length) + 1
  }

  function ForwardType(priority: Byte): FrameType {
    if 1 <= priority <= 5 then Forward(priority) else if priority == 6 then BackToBack else NoFrame
  }

  function QueryType(priority: Byte): FrameType {
    if 1 <= priority <= 5 then Query(priority) else NoFrame
  }

  /** What the serial task does with a line. */
  datatype Action =
    | Queue(frame: TxFrame)
    | ParameterError
    | ShowVersion
    | StartSequence(period: Word)
    | NextSequence(period: Word)
    | ExecuteSequence
    | Nothing

  function Checked(priority: Byte, length: Byte, data: nat, repeat: Byte, kind: FrameType): Action {
    if PriorityOrLengthIllegal(priority, length) || DataIllegal(data, length) then ParameterError
    else Queue(TxFrame(length, Wrap(data), repeat, kind))
  }

  /** query_command and send_forward_frame_command: they differ in the frame type only. */
  function ParseFrame(text: string, isQuery: bool): Action {
    var priority := Convert(text, 0, ULONG_MAX);
    var length := Convert(text, priority.end, ULONG_MAX);
    var twice := At(text, length.end);
    var data := Convert(text, if length.end < |text| then length.end + 1 else |text|, ULLONG_MAX);
    var p := priority.value % 0x100;
    Checked(p, length.value % 0x100, data.value, if twice == '+' then 1 else 0,
            if isQuery then QueryType(p) else ForwardType(p))
  }

  /** send_repeated_command */
  function ParseRepeated(text: string): Action {
    var priority := Convert(text, 0, ULONG_MAX);
    var repeat := Convert(text, priority.end, ULONG_MAX);
    var length := Convert(text, repeat.end, ULONG_MAX);
    var data := Convert(text, length.end, ULLONG_MAX);
    var p := priority.value % 0x100;
    Checked(p, length.value % 0x100, data.value, repeat.value % 0x100, ForwardType(p))
  }

  /** send_backframe_command */
  function ParseBackframe(text: string): Action {
    var data := Convert(text, 0, ULLONG_MAX).value;
    if data > 0xFF then ParameterError else Queue(TxFrame(8, data, 0, Backward))
  }

  /** The switch of serial_task. */
  function Execute(line: string): Action
    requires line != ""
  {
    var text := line[1..];
    match line[0]
    case 'Q' => ParseFrame(text, true)
    case 'S' => ParseFrame(text, false)
    case 'Y' => ParseBackframe(text)
    case 'I' => Queue(TxFrame(0, 0, 0, Corrupt))
    case 'R' => ParseRepeated(text)
    case '?' => ShowVersion
    case 'W' =>
      var period := Convert(text, 0, ULONG_MAX).value;
      if period == 0 then ParameterError else StartSequence(period)
    case 'N' =>
      var period := Convert(text, 0, ULONG_MAX).value;
      if period == 0 then ParameterError else NextSequence(period)
    case 'X' => ExecuteSequence
    case _ => Nothing
  }

  // ---- the range check ----

  /** The exact meaning of the range check. A frame passes exactly if its data needs no more than `length` bits, or is
      2^length itself; that one value does not fit, and is transmitted as 0. */
  lemma RangeCheck(data: nat, length: Byte)
    requires length <= MAX_DATA_LENGTH
    ensures !DataIllegal(data, length) <==> data < Pow2(length) || data == Pow2(length)
    ensures !DataIllegal(data, length) ==>
              (Wrap(data) % Pow2(length) == data <==> data != Pow2(length))
    ensures Wrap(Pow2(length)) % Pow2(length) == 0
  {
    Pow2Word();
    Pow2Monotone(length, 32);
    RangeOf(data, Pow2(length));
    if length < 32 {
      WrapSmall(Pow2(length));
    }
    hide Pow2, Wrap;
  }

  lemma RangeOf(data: nat, p: nat)
    requires 1 <= p <= WORD
    ensures data < p ==> Wrap(data) % p == data
    ensures p < WORD ==> Wrap(p) % p == 0
    ensures p == WORD ==> Wrap(p) % p == 0
  {
    ModSmall(0, p);
    if data < p {
      WrapSmall(data);
      ModSmall(data, p);
    }
    if p < WORD {
      WrapSmall(p);
    }
  }

  lemma Pow2Four(n: nat)
    ensures Pow2(n + 4) == 16 * Pow2(n)
  {
    assert Pow2(n + 4) == 2 * Pow2(n + 3) && Pow2(n + 3) == 2 * Pow2(n + 2) && Pow2(n + 2) == 2 * Pow2(n + 1);
  }

  lemma Pow2Word()
    ensures Pow2(32) == WORD
  {
    Pow2Four(0); Pow2Four(4); Pow2Four(8); Pow2Four(12); Pow2Four(16); Pow2Four(20); Pow2Four(24); Pow2Four(28);
    assert Pow2(0) == 1;
  }

  lemma {:induction false} Pow2Monotone(m: nat, n: nat)
    requires m <= n
    ensures Pow2(m) <= Pow2(n)
    ensures m < n ==> Pow2(m) < Pow2(n)
    decreases n - m
  {
    if m < n { Pow2Monotone(m + 1, n); }
  }

  lemma ModSmall(a: nat, p: nat)
    requires a < p
    ensures a % p == a && p % p == 0
  {}

  // ---- spelling numbers ----

  /** A digit in either case. */
  predicate IsDigit(c: char, d: nat) {
    d < 16 && (c == "0123456789ABCDEF"[d] || c == "0123456789abcdef"[d])
  }

  /** `s` is a hexadecimal spelling of `n`, with or without leading zeros, in upper or lower case or both. */
  predicate Spells(s: string, n: nat) {
    s != "" &&
    if |s| == 1 then IsDigit(s[0], n) else IsDigit(s[|s| - 1], n % 16) && Spells(s[..|s| - 1], n / 16)
  }

  ghost predicate AllHex(s: string) {
    forall k :: 0 <= k < |s| ==> HexDigit(s[k])
  }

  lemma DigitRead(c: char, d: nat)
    requires IsDigit(c, d)
    ensures HexDigit(c) && DigitValue(c) == d
  {}

  /** What is spelled is what is read. */
  lemma {:induction false} SpelledValue(s: string, n: nat)
    requires Spells(s, n)
    ensures HexValue(s) == n && AllHex(s)
  {
    if |s| == 1 {
      DigitRead(s[0], n);
      assert s[..0] == "" && HexValue("") == 0;
    } else {
      var front := s[..|s| - 1];
      DigitRead(s[|s| - 1], n % 16);
      SpelledValue(front, n / 16);
      assert forall k :: 0 <= k < |front| ==> s[k] == front[k];
    }
  }

  /** A number in hexadecimal, without leading zeros, in upper or lower case. */
  function Hex(n: nat, lower: bool): (s: string)
    ensures s != ""
  {
    var last := [(if lower then "0123456789abcdef" else "0123456789ABCDEF")[n % 16]];
    if n < 16 then last else Hex(n / 16, lower) + last
  }

  lemma {:induction false} HexSpells(n: nat, lower: bool)
    ensures Spells(Hex(n, lower), n)
  {
    if n >= 16 {
      HexSpells(n / 16, lower);
      assert Hex(n, lower)[..|Hex(n, lower)| - 1] == Hex(n / 16, lower);
    }
  }

  lemma {:induction false} HexLength(n: nat, lower: bool, digits: nat)
    requires n < Pow2(4 * digits) && digits >= 1
    ensures |Hex(n, lower)| <= digits
  {
    if n >= 16 {
      Pow2Four(4 * (digits - 1));
      HexLength(n / 16, lower, digits - 1);
    }
  }

  // ---- parsing one number ----

  lemma {:induction false} SkipDigitsTo(text: string, i: nat, j: nat)
    requires i <= j <= |text| && (forall k :: i <= k < j ==> HexDigit(text[k]))
    requires j < |text| ==> !HexDigit(text[j])
    ensures SkipDigits(text, i) == j
    decreases j - i
  {
    if i < j { SkipDigitsTo(text, i + 1, j); }
  }

  lemma {:induction false} SkipSpacesTo(text: string, i: nat, j: nat)
    requires i <= j <= |text| && (forall k :: i <= k < j ==> Space(text[k]))
    requires j < |text| ==> !Space(text[j])
    ensures SkipSpaces(text, i) == j
    decreases j - i
  {
    if i < j { SkipSpacesTo(text, i + 1, j); }
  }

  datatype Sign = NoSign | Plus | Minus

  /** The characters that isspace accepts in the C locale. */
  const WHITE_SPACE := [' ', '\t', '\n', 11 as char, 12 as char, '\r']

  /** At `from` the text holds `blanks` characters of white space and a sign; `i` is the position behind them. */
  predicate Leads(text: string, from: nat, blanks: nat, sign: Sign, i: nat) {
    && i == from + blanks + (if sign == NoSign then 0 else 1) <= |text|
    && (forall k :: from <= k < from + blanks ==> text[k] in WHITE_SPACE)
    && match sign
       case NoSign => At(text, i) !in WHITE_SPACE && At(text, i) != '+' && At(text, i) != '-'
       case Plus => text[i - 1] == '+'
       case Minus => text[i - 1] == '-'
  }

  /** At `i` the text holds the digits `digits`, behind a prefix 0x or not, and they end there. */
  predicate HasDigits(text: string, i: nat, prefix: bool, digits: string) {
    var first := if prefix then i + 2 else i;
    && first + |digits| <= |text| && digits != "" && text[first..first + |digits|] == digits
    && !HexDigit(At(text, first + |digits|))
    && if prefix then text[i] == '0' && (text[i + 1] == 'x' || text[i + 1] == 'X')
       else !(At(text, i) == '0' && (At(text, i + 1) == 'x' || At(text, i + 1) == 'X') && HexDigit(At(text, i + 2)))
  }

  lemma DigitAt(text: string, first: nat, digits: string, n: nat)
    requires first + |digits| <= |text| && text[first..first + |digits|] == digits && Spells(digits, n)
    ensures forall k :: first <= k < first + |digits| ==> HexDigit(text[k])
  {
    SpelledValue(digits, n);
    forall k | first <= k < first + |digits| ensures HexDigit(text[k]) {
      assert text[k] == digits[k - first];
    }
  }

  lemma LeadsTo(text: string, from: nat, blanks: nat, sign: Sign, i: nat)
    requires Leads(text, from, blanks, sign, i)
    ensures from <= |text| && SkipSpaces(text, from) == from + blanks
    ensures var start := from + blanks;
            && (At(text, start) == '-' <==> sign == Minus)
            && i == if At(text, start) == '-' || At(text, start) == '+' then start + 1 else start
  {
    SkipSpacesTo(text, from, from + blanks);
  }

  /** strtoul and strtoull on a number: white space, a sign or none, a prefix 0x or none, and digits of either case that
      spell `n`. It is converted to its value, cut off at the maximum, negated modulo the maximum plus one behind a
      minus sign; the position is the one behind the digits. */
  lemma ConvertNumber(text: string, from: nat, blanks: nat, sign: Sign, i: nat, prefix: bool, digits: string, n: nat,
                      max: nat)
    requires Leads(text, from, blanks, sign, i) && HasDigits(text, i, prefix, digits) && Spells(digits, n)
    ensures from <= |text|
    ensures var end := i + (if prefix then 2 else 0) + |digits|;
            Convert(text, from, max) ==
            if n > max then Number(max, end)
            else if sign == Minus && n > 0 then Number(max + 1 - n, end)
            else Number(n, end)
  {
    hide SkipSpaces, SkipDigits, HexValue, HexDigit, Spells, Leads;
    var first := if prefix then i + 2 else i;
    LeadsTo(text, from, blanks, sign, i);
    DigitAt(text, first, digits, n);
    SkipDigitsTo(text, first, first + |digits|);
    SpelledValue(digits, n);
    if n <= max { NegatedValue(n, max); }
    assert prefix ==> HexDigit(At(text, i + 2));
  }

  lemma NegatedValue(n: nat, max: nat)
    requires n <= max
    ensures (max + 1 - n) % (max + 1) == if n == 0 then 0 else max + 1 - n
  {}

  /** Without digits nothing is converted, and the position stays. */
  lemma ConvertNothing(text: string, from: nat, blanks: nat, sign: Sign, i: nat, max: nat)
    requires Leads(text, from, blanks, sign, i) && !HexDigit(At(text, i))
    ensures from <= |text| && Convert(text, from, max) == Number(0, from)
  {
    LeadsTo(text, from, blanks, sign, i);
    hide SkipSpaces, Leads;
  }

  // ---- texts and fields ----

  /** What may stand between the length and the data: anything that is not read as part of the length. A plus sign asks
      for the frame to be sent twice. */
  predicate Separates(c: char) {
    !HexDigit(c) && c != 'x' && c != 'X'
  }

  function FrameText(p: string, l: string, mark: char, d: string): string {
    Joined(p, " ", l, [mark], d)
  }

  function RepeatedText(p: string, r: string, l: string, d: string): string {
    Joined(p, " ", r, " ", l) + " " + d
  }

  function Joined(a: string, s: string, b: string, t: string, c: string): string {
    a + s + b + t + c
  }

  /** `text` is `head`, a terminator, and whatever an earlier line left in the buffer. */
  ghost predicate Terminated(text: string, head: string) {
    |head| < |text| && text[..|head|] == head && text[|head|] == NUL
  }

  /** At `first` the text holds the digits `part`, and behind them `next`, which ends them. */
  ghost predicate Field(text: string, first: nat, part: string, next: char) {
    && first + |part| < |text| && text[first..first + |part|] == part
    && text[first + |part|] == next && Separates(next)
  }

  lemma FieldConverted(text: string, from: nat, first: nat, part: string, n: nat, next: char, max: nat)
    requires Field(text, first, part, next) && Spells(part, n)
    requires from == first || (from == first - 1 && text[from] == ' ')
    ensures Convert(text, from, max) == Number(if n > max then max else n, first + |part|)
    ensures first + |part| < |text| && text[first + |part|] == next
  {
    DigitAt(text, first, part, n);
    FieldLeads(text, from, first, part, next);
    hide Convert, Spells, Leads, HasDigits;
    ConvertNumber(text, from, first - from, NoSign, first, false, part, n, max);
  }

  lemma FieldLeads(text: string, from: nat, first: nat, part: string, next: char)
    requires Field(text, first, part, next) && part != ""
    requires forall k :: first <= k < first + |part| ==> HexDigit(text[k])
    requires from == first || (from == first - 1 && text[from] == ' ')
    ensures Leads(text, from, first - from, NoSign, first) && HasDigits(text, first, false, part)
  {}

  /** `part` lies in `head` at `first`, with `next` (at the end of `head`, a terminator) behind it. */
  ghost predicate Lies(head: string, first: nat, part: string, next: char) {
    && first + |part| <= |head| && head[first..first + |part|] == part
    && next == if first + |part| < |head| then head[first + |part|] else NUL
  }

  lemma LiesBetween(head: string, pre: string, part: string, post: string)
    requires head == pre + part + post
    ensures Lies(head, |pre|, part, if post == "" then NUL else post[0])
  {}

  /** Where the parts of a joined text lie. */
  lemma JoinedParts(a: string, s: string, b: string, t: string, c: string)
    requires |s| == |t| == 1
    ensures |Joined(a, s, b, t, c)| == |a| + |b| + |c| + 2
    ensures Lies(Joined(a, s, b, t, c), 0, a, s[0])
    ensures Lies(Joined(a, s, b, t, c), |a| + 1, b, t[0])
    ensures Lies(Joined(a, s, b, t, c), |a| + |b| + 2, c, NUL)
  {
    var head := Joined(a, s, b, t, c);
    assert head == "" + a + (s + b + t + c) && head == (a + s) + b + (t + c) && head == (a + s + b + t) + c + "";
    LiesBetween(head, "", a, s + b + t + c);
    LiesBetween(head, a + s, b, t + c);
    LiesBetween(head, a + s + b + t, c, "");
  }

  /** What lies in the front lies in the whole. */
  lemma LiesInFront(head: string, front: string, rest: string, first: nat, part: string, next: char)
    requires head == front + rest && rest != "" && Lies(front, first, part, next)
    ensures Lies(head, first, part, if first + |part| < |front| then next else rest[0])
  {
    assert head[first..first + |part|] == front[first..first + |part|];
  }

  lemma FieldAt(text: string, head: string, first: nat, part: string, next: char)
    requires Terminated(text, head) && Lies(head, first, part, next) && Separates(next)
    ensures Field(text, first, part, next)
  {
    var end := first + |part|;
    assert text[first..end] == text[..|head|][first..end];
    if end < |head| { assert text[end] == text[..|head|][end]; }
  }

  /** The fields of an S or Q text. */
  lemma FrameFields(text: string, p: string, l: string, mark: char, d: string)
    requires Terminated(text, FrameText(p, l, mark, d)) && Separates(mark)
    ensures |FrameText(p, l, mark, d)| == |p| + |l| + |d| + 2
    ensures Field(text, 0, p, ' ') && Field(text, |p| + 1, l, mark)
    ensures Field(text, |p| + |l| + 2, d, NUL)
  {
    hide Joined, Lies, Terminated, Field;
    var head := FrameText(p, l, mark, d);
    JoinedParts(p, " ", l, [mark], d);
    FieldAt(text, head, 0, p, ' ');
    FieldAt(text, head, |p| + 1, l, mark);
    FieldAt(text, head, |p| + |l| + 2, d, NUL);
  }

  lemma PairLies(front: string, d: string)
    ensures front + " " + d == front + (" " + d) && |front + " " + d| == |front| + 1 + |d|
    ensures Lies(front + " " + d, |front| + 1, d, NUL)
  {
    assert front + " " + d == (front + " ") + d + "";
    LiesBetween(front + " " + d, front + " ", d, "");
  }

  /** The fields of an R text. */
  lemma RepeatedFields(text: string, p: string, r: string, l: string, d: string)
    requires Terminated(text, RepeatedText(p, r, l, d))
    ensures |RepeatedText(p, r, l, d)| == |p| + |r| + |l| + |d| + 3
    ensures Field(text, 0, p, ' ') && Field(text, |p| + 1, r, ' ') && Field(text, |p| + |r| + 2, l, ' ')
    ensures Field(text, |p| + |r| + |l| + 3, d, NUL)
  {
    hide Joined, Lies, Terminated, Field;
    var front := Joined(p, " ", r, " ", l);
    var head := front + " " + d;
    JoinedParts(p, " ", r, " ", l);
    PairLies(front, d);
    LiesInFront(head, front, " " + d, 0, p, ' ');
    LiesInFront(head, front, " " + d, |p| + 1, r, ' ');
    LiesInFront(head, front, " " + d, |p| + |r| + 2, l, NUL);
    FieldAt(text, head, 0, p, ' ');
    FieldAt(text, head, |p| + 1, r, ' ');
    FieldAt(text, head, |p| + |r| + 2, l, ' ');
    FieldAt(text, head, |p| + |r| + |l| + 3, d, NUL);
  }

  // ---- what the commands mean ----

  /** A typed number as the parsers keep it in a uint8_t. */
  function Kept8(n: nat): Byte {
    (if n > 0xFFFF_FFFF then 0xFFFF_FFFF else n) % 0x100
  }

  function Kept64(n: nat): nat {
    if n > 0xFFFF_FFFF_FFFF_FFFF then 0xFFFF_FFFF_FFFF_FFFF else n
  }

  /** The legal arguments, as the code sees them: data may also be 2^length itself. */
  predicate Accepted(priority: nat, length: nat, data: nat) {
    1 <= Kept8(priority) <= 6 && Kept8(length) <= 32 && Kept64(data) <= Pow2(Kept8(length))
  }

  lemma CheckedExactly(priority: nat, length: nat, data: nat, repeat: Byte, kind: FrameType)
    ensures Checked(Kept8(priority), Kept8(length), Kept64(data), repeat, kind) ==
            if Accepted(priority, length, data) then Queue(TxFrame(Kept8(length), Kept64(data) % WORD, repeat, kind))
            else ParameterError
  {
    hide Pow2, Kept8, Kept64;
  }

  /** The grammar of S and Q, for all numbers in every spelling, legal or not, whatever stale text lies behind the
      terminator: a frame is queued if and only if the priority is 1 to 6, the length at most 32 and the data at most
      2^length; it is the frame that was typed. Otherwise the parameters are refused. A query has no priority 6: it
      gives a frame of no type, which is not sent. */
  lemma FrameParsed(text: string, isQuery: bool, p: string, l: string, mark: char, d: string,
                    priority: nat, length: nat, data: nat)
    requires Terminated(text, FrameText(p, l, mark, d)) && Separates(mark)
    requires Spells(p, priority) && Spells(l, length) && Spells(d, data)
    ensures var repeat, k := if mark == '+' then 1 else 0, Kept8(priority);
            ParseFrame(text, isQuery) ==
            if !Accepted(priority, length, data) then ParameterError
            else Queue(TxFrame(Kept8(length), Kept64(data) % WORD, repeat,
                               if k == 6 then (if isQuery then NoFrame else BackToBack)
                               else if isQuery then Query(k) else Forward(k)))
  {
    hide Convert, Pow2, Field, Terminated, FrameText, Spells, Accepted, Checked;
    FrameFields(text, p, l, mark, d);
    FieldConverted(text, 0, 0, p, priority, ' ', ULONG_MAX);
    FieldConverted(text, |p|, |p| + 1, l, length, mark, ULONG_MAX);
    FieldConverted(text, |p| + |l| + 2, |p| + |l| + 2, d, data, NUL, ULLONG_MAX);
    var k := Kept8(priority);
    CheckedExactly(priority, length, data, if mark == '+' then 1 else 0,
                   if isQuery then QueryType(k) else ForwardType(k));
    AcceptedPriority(priority, length, data);
  }

  lemma AcceptedPriority(priority: nat, length: nat, data: nat)
    ensures Accepted(priority, length, data) ==> 1 <= Kept8(priority) <= 6
  {
    hide Pow2;
  }

  /** The same for R, with a repeat count. */
  lemma RepeatedParsed(text: string, p: string, r: string, l: string, d: string,
                       priority: nat, repeat: nat, length: nat, data: nat)
    requires Terminated(text, RepeatedText(p, r, l, d))
    requires Spells(p, priority) && Spells(r, repeat) && Spells(l, length) && Spells(d, data)
    ensures var k := Kept8(priority);
            ParseRepeated(text) ==
            if !Accepted(priority, length, data) then ParameterError
            else Queue(TxFrame(Kept8(length), Kept64(data) % WORD, Kept8(repeat),
                               if k == 6 then BackToBack else Forward(k)))
  {
    hide *;
    RepeatedConverted(text, p, r, l, d, priority, repeat, length, data);
    ParsedFrom(text, |p|, |p| + |r| + 1, |p| + |r| + |l| + 2, priority, repeat, length, data);
    CheckedExactly(priority, length, data, Kept8(repeat), ForwardType(Kept8(priority)));
    if Accepted(priority, length, data) {
      AcceptedPriority(priority, length, data);
      ForwardTypes(Kept8(priority));
    }
  }

  lemma ForwardTypes(k: Byte)
    requires 1 <= k <= 6
    ensures ForwardType(k) == if k == 6 then BackToBack else Forward(k)
  {}

  lemma RepeatedConverted(text: string, p: string, r: string, l: string, d: string,
                          priority: nat, repeat: nat, length: nat, data: nat)
    requires Terminated(text, RepeatedText(p, r, l, d))
    requires Spells(p, priority) && Spells(r, repeat) && Spells(l, length) && Spells(d, data)
    ensures |p| + |r| + |l| + |d| + 3 < |text|
    ensures Convert(text, 0, ULONG_MAX) == Number(if priority > ULONG_MAX then ULONG_MAX else priority, |p|)
    ensures Convert(text, |p|, ULONG_MAX) == Number(if repeat > ULONG_MAX then ULONG_MAX else repeat, |p| + |r| + 1)
    ensures Convert(text, |p| + |r| + 1, ULONG_MAX) ==
            Number(if length > ULONG_MAX then ULONG_MAX else length, |p| + |r| + |l| + 2)
    ensures Convert(text, |p| + |r| + |l| + 2, ULLONG_MAX).value == if data > ULLONG_MAX then ULLONG_MAX else data
  {
    hide *;
    RepeatedFields(text, p, r, l, d);
    TextEnds(text, RepeatedText(p, r, l, d));
    FieldConverted(text, 0, 0, p, priority, ' ', ULONG_MAX);
    FieldConverted(text, |p|, |p| + 1, r, repeat, ' ', ULONG_MAX);
    FieldConverted(text, |p| + 1 + |r|, |p| + |r| + 2, l, length, ' ', ULONG_MAX);
    FieldConverted(text, |p| + |r| + 2 + |l|, |p| + |r| + |l| + 3, d, data, NUL, ULLONG_MAX);
  }

  lemma ParsedFrom(text: string, i: nat, j: nat, k: nat, priority: nat, repeat: nat, length: nat, data: nat)
    requires i <= |text| && j <= |text| && k <= |text|
    requires Convert(text, 0, ULONG_MAX) == Number(if priority > ULONG_MAX then ULONG_MAX else priority, i)
    requires Convert(text, i, ULONG_MAX) == Number(if repeat > ULONG_MAX then ULONG_MAX else repeat, j)
    requires Convert(text, j, ULONG_MAX) == Number(if length > ULONG_MAX then ULONG_MAX else length, k)
    requires Convert(text, k, ULLONG_MAX).value == if data > ULLONG_MAX then ULLONG_MAX else data
    ensures ParseRepeated(text) ==
            Checked(Kept8(priority), Kept8(length), Kept64(data), Kept8(repeat), ForwardType(Kept8(priority)))
  {
    hide Convert, Checked, ForwardType;
  }

  lemma TextEnds(text: string, head: string)
    requires Terminated(text, head)
    ensures |head| < |text|
  {}

  lemma WholeField(text: string, d: string)
    requires Terminated(text, d)
    ensures Field(text, 0, d, NUL)
  {
    assert text[0..|d|] == text[..|d|];
  }

  /** Y: an answer of eight bits if the value fits, else refused. */
  lemma BackframeParsed(text: string, d: string, data: nat)
    requires Terminated(text, d) && Spells(d, data)
    ensures ParseBackframe(text) == if data <= 255 then Queue(TxFrame(8, data, 0, Backward)) else ParameterError
  {
    hide Convert, Spells, Field;
    WholeField(text, d);
    FieldConverted(text, 0, 0, d, data, NUL, ULLONG_MAX);
  }

  /** W and N: a period, cut off at 2^32 - 1; 0 is refused. */
  lemma PeriodParsed(text: string, d: string, period: nat)
    requires Terminated(text, d) && Spells(d, period)
    ensures var kept := if period > 0xFFFF_FFFF then 0xFFFF_FFFF else period;
            && Execute(['W'] + text) == (if period == 0 then ParameterError else StartSequence(kept))
            && Execute(['N'] + text) == (if period == 0 then ParameterError else NextSequence(kept))
  {
    hide Convert, Spells, Field;
    WholeField(text, d);
    FieldConverted(text, 0, 0, d, period, NUL, ULONG_MAX);
    assert (['W'] + text)[1..] == text && (['N'] + text)[1..] == text;
  }

  // ---- the round trips ----

  lemma TextLengths(priority: nat, length: nat, data: nat, lower: bool)
    requires priority <= 6 && length <= MAX_DATA_LENGTH && data < Pow2(length)
    ensures |Hex(priority, lower)| == 1 && |Hex(length, lower)| <= 2 && |Hex(data, lower)| <= 8 && data < WORD
  {
    Pow2Word();
    Pow2Monotone(length, 32);
    HexLength(data, lower, 8);
    Pow2Four(0); Pow2Four(4);
    HexLength(length, lower, 2);
  }

  /** S and Q are parsed back: for every priority, length and data that the commands admit, and every mark, the text in
      either case fits a line, and the line gives exactly the frame that was meant. */
  lemma FrameRoundTrip(text: string, isQuery: bool, priority: nat, length: nat, mark: char, data: nat, lower: bool)
    requires Separates(mark) && 1 <= priority <= 6 && length <= MAX_DATA_LENGTH && data < Pow2(length)
    requires Terminated(text, FrameText(Hex(priority, lower), Hex(length, lower), mark, Hex(data, lower)))
    ensures |FrameText(Hex(priority, lower), Hex(length, lower), mark, Hex(data, lower))| <= BUFFER_SIZE - 2
    ensures data < WORD
    ensures ParseFrame(text, isQuery) ==
            Queue(TxFrame(length, data, if mark == '+' then 1 else 0,
                          if priority == 6 then (if isQuery then NoFrame else BackToBack)
                          else if isQuery then Query(priority) else Forward(priority)))
  {
    hide Hex, Pow2, Field, Terminated, FrameText, Spells, ParseFrame, Accepted;
    TextLengths(priority, length, data, lower);
    HexSpells(priority, lower);
    HexSpells(length, lower);
    HexSpells(data, lower);
    FrameFields(text, Hex(priority, lower), Hex(length, lower), mark, Hex(data, lower));
    FrameParsed(text, isQuery, Hex(priority, lower), Hex(length, lower), mark, Hex(data, lower), priority, length,
                data);
    LegalAccepted(priority, length, data);
  }

  lemma LegalAccepted(priority: nat, length: nat, data: nat)
    requires 1 <= priority <= 6 && length <= MAX_DATA_LENGTH && data < Pow2(length) && data < WORD
    ensures Accepted(priority, length, data) && Kept8(priority) == priority && Kept8(length) == length
    ensures Kept64(data) % WORD == data
  {
    hide Pow2;
  }

  /** The same for R, with a repeat count. */
  lemma RepeatedRoundTrip(text: string, priority: nat, repeat: nat, length: nat, data: nat, lower: bool)
    requires 1 <= priority <= 6 && repeat <= 0xFF && length <= MAX_DATA_LENGTH && data < Pow2(length)
    requires Terminated(text, RepeatedText(Hex(priority, lower), Hex(repeat, lower), Hex(length, lower),
                                           Hex(data, lower)))
    ensures |RepeatedText(Hex(priority, lower), Hex(repeat, lower), Hex(length, lower), Hex(data, lower))|
            <= BUFFER_SIZE - 2
    ensures data < WORD
    ensures ParseRepeated(text) ==
            Queue(TxFrame(length, data, repeat, if priority == 6 then BackToBack else Forward(priority)))
  {
    hide *;
    RepeatedFits(text, priority, repeat, length, data, lower);
    HexSpells(priority, lower);
    HexSpells(repeat, lower);
    HexSpells(length, lower);
    HexSpells(data, lower);
    RepeatedParsed(text, Hex(priority, lower), Hex(repeat, lower), Hex(length, lower), Hex(data, lower),
                   priority, repeat, length, data);
    LegalAccepted(priority, length, data);
    LegalRepeat(repeat);
  }

  lemma RepeatedFits(text: string, priority: nat, repeat: nat, length: nat, data: nat, lower: bool)
    requires 1 <= priority <= 6 && repeat <= 0xFF && length <= MAX_DATA_LENGTH && data < Pow2(length)
    requires Terminated(text, RepeatedText(Hex(priority, lower), Hex(repeat, lower), Hex(length, lower),
                                           Hex(data, lower)))
    ensures |RepeatedText(Hex(priority, lower), Hex(repeat, lower), Hex(length, lower), Hex(data, lower))|
            <= BUFFER_SIZE - 2
    ensures data < WORD
  {
    hide Hex, Pow2, Field, Terminated, RepeatedText;
    TextLengths(priority, length, data, lower);
    RepeatLength(repeat, lower);
    RepeatedFields(text, Hex(priority, lower), Hex(repeat, lower), Hex(length, lower), Hex(data, lower));
  }

  lemma LegalRepeat(repeat: nat)
    requires repeat <= 0xFF
    ensures Kept8(repeat) == repeat
  {}

  lemma RepeatLength(repeat: nat, lower: bool)
    requires repeat <= 0xFF
    ensures |Hex(repeat, lower)| <= 2
  {
    Pow2Four(0); Pow2Four(4);
    HexLength(repeat, lower, 2);
  }
}
