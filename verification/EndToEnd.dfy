/** From the bytes of a command line to the frame another device receives. */
module EndToEnd {
  import opened Dali
  import opened Biphase
  import opened Uart
  import opened Commands
  import opened TxSpec
  import opened RxSpec
  import opened Runs
  import opened Loopback
  import opened Repeats

  /** A number as it is typed. */
  datatype Num = Num(digits: string, value: nat) {
    predicate Spelled() {
      Spells(digits, value)
    }
  }

  /** A command as it is typed, with legal arguments or not. */
  datatype Command =
    | Frame(isQuery: bool, priority: Num, length: Num, mark: char, data: Num)
    | Repeated(priority: Num, repeat: Num, length: Num, data: Num)
    | Answer(data: Num)
    | CorruptAnswer
    | FirstPeriod(period: Num)
    | NextPeriod(period: Num)
    | RunSequence
  {
    predicate Spelled() {
      match this
      case Frame(_, p, l, mark, d) => p.Spelled() && l.Spelled() && d.Spelled() && Separates(mark) && Plain(mark)
      case Repeated(p, r, l, d) => p.Spelled() && r.Spelled() && l.Spelled() && d.Spelled()
      case Answer(d) => d.Spelled()
      case FirstPeriod(n) => n.Spelled()
      case NextPeriod(n) => n.Spelled()
      case _ => true
    }

    function Initial(): char {
      match this
      case Frame(isQuery, _, _, _, _) => if isQuery then 'Q' else 'S'
      case Repeated(_, _, _, _) => 'R'
      case Answer(_) => 'Y'
      case CorruptAnswer => 'I'
      case FirstPeriod(_) => 'W'
      case NextPeriod(_) => 'N'
      case RunSequence => 'X'
    }

    function Text(): string {
      match this
      case Frame(_, p, l, mark, d) => FrameText(p.digits, l.digits, mark, d.digits)
      case Repeated(p, r, l, d) => RepeatedText(p.digits, r.digits, l.digits, d.digits)
      case Answer(d) => d.digits
      case FirstPeriod(n) => n.digits
      case NextPeriod(n) => n.digits
      case _ => ""
    }

    /** What the command is for, in terms of its numbers. */
    function Meaning(): Action {
      match this
      case Frame(isQuery, p, l, mark, d) =>
        var k := Kept8(p.value);
        if !Accepted(p.value, l.value, d.value) then ParameterError
        else Queue(TxFrame(Kept8(l.value), Kept64(d.value) % WORD, if mark == '+' then 1 else 0,
                           if k == 6 then (if isQuery then NoFrame else BackToBack)
                           else if isQuery then Query(k) else Forward(k)))
      case Repeated(p, r, l, d) =>
        var k := Kept8(p.value);
        if !Accepted(p.value, l.value, d.value) then ParameterError
        else Queue(TxFrame(Kept8(l.value), Kept64(d.value) % WORD, Kept8(r.value),
                           if k == 6 then BackToBack else Forward(k)))
      case Answer(d) => if d.value <= 255 then Queue(TxFrame(8, d.value, 0, Backward)) else ParameterError
      case CorruptAnswer => Queue(TxFrame(0, 0, 0, Corrupt))
      case FirstPeriod(n) => if n.value == 0 then ParameterError else StartSequence(CutOff(n.value))
      case NextPeriod(n) => if n.value == 0 then ParameterError else NextSequence(CutOff(n.value))
      case RunSequence => ExecuteSequence
    }
  }

  function CutOff(n: nat): Word {
    if n > 0xFFFF_FFFF then 0xFFFF_FFFF else n
  }

  // ---- a typed line ----

  /** The bytes of the command begin at `p` of the stream and end at `e`, and they fit a line. */
  ghost predicate Typed(cs: seq<char>, p: nat, e: nat, c: Command) {
    && p < e < |cs| && cs[e] == EOL && cs[p] == c.Initial() && cs[p + 1..e] == c.Text()
    && c.Spelled() && |c.Text()| <= BUFFER_SIZE - 2
  }

  predicate AllPlain(s: string) {
    forall k :: 0 <= k < |s| ==> Plain(s[k])
  }

  lemma SpelledPlain(s: string, n: nat)
    requires Spells(s, n)
    ensures AllPlain(s)
  {
    SpelledValue(s, n);
  }

  lemma JoinedPlain(a: string, s: string, b: string, t: string, c: string)
    requires AllPlain(a) && AllPlain(s) && AllPlain(b) && AllPlain(t) && AllPlain(c)
    ensures AllPlain(Joined(a, s, b, t, c))
  {
    hide Plain;
  }

  /** The text of a command has no byte that would end or restart the line. */
  lemma TextPlain(c: Command)
    requires c.Spelled()
    ensures AllPlain(c.Text()) && Letter(c.Initial())
  {
    assert AllPlain(" ") && AllPlain("");
    match c
    case Frame(_, p, l, mark, d) =>
      SpelledPlain(p.digits, p.value);
      SpelledPlain(l.digits, l.value);
      SpelledPlain(d.digits, d.value);
      JoinedPlain(p.digits, " ", l.digits, [mark], d.digits);
    case Repeated(p, r, l, d) =>
      SpelledPlain(p.digits, p.value);
      SpelledPlain(r.digits, r.value);
      SpelledPlain(l.digits, l.value);
      SpelledPlain(d.digits, d.value);
      JoinedPlain(p.digits, " ", r.digits, " ", l.digits);
      JoinedPlain(Joined(p.digits, " ", r.digits, " ", l.digits), " ", d.digits, "", "");
      assert RepeatedText(p.digits, r.digits, l.digits, d.digits) ==
             Joined(Joined(p.digits, " ", r.digits, " ", l.digits), " ", d.digits, "", "");
    case Answer(d) => SpelledPlain(d.digits, d.value);
    case FirstPeriod(n) => SpelledPlain(n.digits, n.value);
    case NextPeriod(n) => SpelledPlain(n.digits, n.value);
    case _ =>
  }

  lemma TypedLine(cs: seq<char>, p: nat, e: nat, c: Command)
    requires Typed(cs, p, e, c)
    ensures CommandLine(cs, p, e)
  {
    TextPlain(c);
    hide Plain, Letter;
    forall k | p < k < e ensures Plain(cs[k]) {
      assert cs[k] == cs[p + 1..e][k - p - 1];
    }
  }

  /** What the serial task does with the line that ends at `e`. */
  function LastAction(s: Lines, cs: seq<char>, e: nat): Action
    requires s.Valid() && e < |cs|
  {
    var delivered := FeedTo(s, cs, e + 1).delivered;
    if delivered == [] then Nothing else Execute(delivered[|delivered| - 1])
  }

  /** Whatever bytes come before, a typed command is delivered at the end of its line, once, and does exactly what it
      means: every command of the serial task, in every spelling of its numbers, with legal arguments or not. */
  lemma CommandUnderstood(s: Lines, cs: seq<char>, p: nat, e: nat, c: Command)
    requires s.Valid() && Typed(cs, p, e, c)
    ensures |FeedTo(s, cs, e + 1).delivered| == |FeedTo(s, cs, p).delivered| + 1
    ensures LastAction(s, cs, e) == c.Meaning()
  {
    hide FeedTo, CommandLine, Execute, Spells;
    TypedLine(cs, p, e, c);
    LineDelivered(s, cs, p, e);
    var delivered := FeedTo(s, cs, e + 1).delivered;
    LineText(delivered[|delivered| - 1], cs, p, e, c);
  }

  lemma LineText(line: Buffer, cs: seq<char>, p: nat, e: nat, c: Command)
    requires Typed(cs, p, e, c)
    requires line[..e - p] == cs[p..e] && line[e - p] == NUL
    ensures Execute(line) == c.Meaning()
  {
    hide Execute, Spells;
    var text, head := line[1..], c.Text();
    assert line[0] == line[..e - p][0] == cs[p];
    assert text[..|head|] == line[..e - p][1..] == cs[p..e][1..] == head;
    assert text[|head|] == line[e - p];
    CommandExecuted(line, c);
  }

  lemma CommandExecuted(line: Buffer, c: Command)
    requires c.Spelled() && line[0] == c.Initial() && Terminated(line[1..], c.Text())
    ensures Execute(line) == c.Meaning()
  {
    hide ParseFrame, ParseRepeated, ParseBackframe, Convert, Spells, Terminated, Accepted, Kept8, Kept64;
    hide FrameText, RepeatedText;
    var text := line[1..];
    assert line == [line[0]] + text;
    match c
    case Frame(isQuery, p, l, mark, d) =>
      FrameParsed(text, isQuery, p.digits, l.digits, mark, d.digits, p.value, l.value, d.value);
    case Repeated(p, r, l, d) =>
      RepeatedParsed(text, p.digits, r.digits, l.digits, d.digits, p.value, r.value, l.value, d.value);
    case Answer(d) => BackframeParsed(text, d.digits, d.value);
    case FirstPeriod(n) => PeriodParsed(text, n.digits, n.value);
    case NextPeriod(n) => PeriodParsed(text, n.digits, n.value);
    case _ =>
  }

  // ---- other lines ----

  /** A question mark asks for the version. */
  lemma HelpUnderstood(s: Lines, cs: seq<char>, e: nat)
    requires s.Valid() && e < |cs| && cs[e] == HELP
    ensures LastAction(s, cs, e) == ShowVersion
  {
    HelpDelivered(s, cs, e);
    hide FeedTo;
  }

  /** Neither buffer begins with a command. */
  predicate Unnamed(s: Lines) {
    Nameless(s.active[0]) && Nameless(s.other[0])
  }

  predicate Nameless(c: char) {
    !Letter(c) && c != HELP
  }

  /** Without a command letter nothing is done: from buffers without one, over every stream of other bytes, every line
      handed over is ignored. */
  lemma {:induction false} NothingWithoutLetter(s: Lines, cs: seq<char>, n: nat)
    requires s.Valid() && Unnamed(s) && n <= |cs| && forall k :: 0 <= k < n ==> Nameless(cs[k])
    ensures Unnamed(FeedTo(s, cs, n)) && s.delivered <= FeedTo(s, cs, n).delivered
    ensures forall k :: |s.delivered| <= k < |FeedTo(s, cs, n).delivered| ==>
              Execute(FeedTo(s, cs, n).delivered[k]) == Nothing
  {
    if n > 0 {
      NothingWithoutLetter(s, cs, n - 1);
      NamelessFed(FeedTo(s, cs, n - 1), cs[n - 1]);
      hide Feed, Execute, Unnamed;
    }
  }

  lemma NamelessFed(s: Lines, c: char)
    requires s.Valid() && Unnamed(s) && Nameless(c)
    ensures var r := Feed(s, c);
            && Unnamed(r)
            && (r.delivered == s.delivered ||
                (|r.delivered| == |s.delivered| + 1 && r.delivered[..|s.delivered|] == s.delivered
                 && Execute(r.delivered[|s.delivered|]) == Nothing))
  {}

  /** What the letter of a command does without arguments. */
  function Again(c: Command): Action {
    match c
    case Answer(_) => Queue(TxFrame(8, 0, 0, Backward))
    case CorruptAnswer => Queue(TxFrame(0, 0, 0, Corrupt))
    case RunSequence => ExecuteSequence
    case _ => ParameterError
  }

  /** An empty line is not ignored: it takes up the letter of the line before last, which is still in the buffer. Behind
      an I or an X and another line, empty or not, it sends or executes the same again, behind a Y an answer 0; behind
      the other commands it is a parameter error. */
  lemma EmptyLineRepeats(s: Lines, cs: seq<char>, p: nat, e: nat, c: Command, e': nat)
    requires s.Valid() && Typed(cs, p, e, c) && e < e' < |cs| - 1 && cs[e'] == cs[e' + 1] == EOL
    requires e' == e + 1 || CommandLine(cs, e + 1, e')
    ensures LastAction(s, cs, e' + 1) == Again(c)
  {
    hide Execute, Spells, Feed, CommandLine;
    TypedLine(cs, p, e, c);
    LineDelivered(s, cs, p, e);
    if e' > e + 1 { LineDelivered(s, cs, e + 1, e'); }
    var line := FeedTo(s, cs, e + 1).other;
    assert line[0] == line[..1][0] == cs[p];
    EndFed(FeedTo(s, cs, e'), EOL);
    EndFed(FeedTo(s, cs, e' + 1), EOL);
    var last := FeedTo(s, cs, e' + 2).delivered[|FeedTo(s, cs, e' + 1).delivered|];
    assert last[0] == last[..1][0] == line[..1][0];
    EmptyExecuted(last, c);
  }

  lemma EmptyExecuted(line: Buffer, c: Command)
    requires line[0] == c.Initial() && line[1] == NUL
    ensures Execute(line) == Again(c)
  {
    var text := line[1..];
    ConvertNothing(text, 0, 0, NoSign, 0, ULONG_MAX);
    ConvertNothing(text, 0, 0, NoSign, 0, ULLONG_MAX);
    hide Convert, Pow2;
  }

  // ---- from the command to the frame received ----

  /** One device sends the frame at event `a` of its run, while nothing waits and with no other frame until event `b`,
      which starts a transmission: at once, after the settling time, or as a repeat. */
  ghost predicate TransmittedAt(us: seq<World>, ds: seq<Event>, a: nat, b: nat, frame: TxFrame) {
    && a <= b && OneFrame(us, ds, a, b + 1) && ds[a].frame == frame
    && us[b].node.tx.starts < us[b + 1].node.tx.starts
  }

  /** An S, Q or R command with legal arguments: priority 1 to 6 (1 to 5 for a query), up to 32 bits, data that fit. */
  predicate Orders(c: Command, length: nat, data: nat) {
    match c
    case Frame(isQuery, p, l, _, d) =>
      1 <= p.value <= (if isQuery then 5 else 6) && l.value == length <= 32 && d.value == data < Pow2(length)
    case Repeated(p, r, l, d) =>
      1 <= p.value <= 6 && r.value <= 255 && l.value == length <= 32 && d.value == data < Pow2(length)
    case _ => false
  }

  lemma OrderMeans(c: Command, length: nat, data: nat)
    requires Orders(c, length, data)
    ensures length <= 32 && c.Meaning().Queue?
    ensures var f := c.Meaning().frame;
            f.length == length && f.data == data == f.data % Pow2(length) && f.kind != Corrupt && f.kind != NoFrame
  {
    Pow2Word();
    Pow2Monotone(length, 32);
    ModSmall(data, Pow2(length));
    LegalAccepted(c.priority.value, length, data);
    hide Pow2, Accepted, Kept8, Kept64;
  }

  /** End to end. A legal S, Q or R command, typed in any spelling after whatever other bytes, makes the serial task
      queue a frame. When the main task sends that frame, every transmission that starts for it, heard by another device
      with up to 83 us of jitter in the events from `i` to `l` with the stop condition `j` behind them, makes the other
      device queue exactly one frame: good, with the length and the data that were typed. */
  lemma TypedIsReceived(s: Lines, cs: seq<char>, p: nat, e: nat, c: Command, length: nat, data: nat,
                        us: seq<World>, ds: seq<Event>, a: nat, b: nat,
                        ws: seq<World>, es: seq<Event>, ts: seq<int>, i: nat, l: nat, j: nat)
    requires s.Valid() && Typed(cs, p, e, c) && Orders(c, length, data)
    requires var action := LastAction(s, cs, e);
             action.Queue? ==> TransmittedAt(us, ds, a, b, action.frame)
    requires b + 1 < |us| && Ready(us[b + 1].node.tx) && Hears(ws, es, ts, i, l, j, RunTimer(us[b + 1].node.tx).edges)
    ensures LastAction(s, cs, e).Queue? && i < |ws| && j + 1 < |ws|
    ensures GoodFrames(ws[i].node.rx.queue, ws[j + 1].node.rx.queue, 1, length, data)
  {
    hide FeedTo, LastAction, Pow2, Inv, Step, Hears, Load, RunTimer, NoSend, Typed, Orders;
    CommandUnderstood(s, cs, p, e, c);
    OrderMeans(c, length, data);
    var frame := c.Meaning().frame;
    CopyOnTheLine(us, ds, a, b);
    FrameReceived(frame, us[a].node.tx, ws, es, ts, i, l, j);
  }
}
