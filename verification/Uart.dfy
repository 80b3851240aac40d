/** The receive interrupt of serial.c: bytes are assembled into command lines in two buffers, one of which is
    filled while the serial task reads the other. */
module Uart {

  const BUFFER_SIZE := 20
  const NUL: char := 0 as char
  const EOL: char := 13 as char
  const HELP: char := '?'

  type Buffer = s: seq<char> | |s| == BUFFER_SIZE witness seq(BUFFER_SIZE, _ => 0 as char)

  /** The letters that start a command. */
  predicate Letter(c: char) {
    c in "SQRNWYXI"
  }

  /** Bytes without a meaning of their own. */
  predicate Plain(c: char) {
    !Letter(c) && c != HELP && c != EOL
  }

  /** The buffer being filled, the other one, the write index, and the buffers handed to the serial task so far. */
  datatype Lines = Lines(active: Buffer, other: Buffer, index: nat, delivered: seq<Buffer>) {
    predicate Valid() {
      index < BUFFER_SIZE
    }
  }

  function Deliver(s: Lines, line: Buffer): Lines {
    Lines(s.other, line, 0, s.delivered + [line])
  }

  function Feed(s: Lines, c: char): (r: Lines)
    requires s.Valid()
    ensures r.Valid()
  {
    var s' := if Letter(c) then s.(active := s.active[0 := c], index := 0)
              else if c == HELP then Deliver(s, s.active[0 := c][1 := NUL])
              else if c == EOL then Deliver(s, s.active[s.index := NUL])
              else s.(active := s.active[s.index := c]);
    if s'.index < BUFFER_SIZE - 1 then s'.(index := s'.index + 1) else s'
  }

  /** The first `n` bytes of `cs` are fed. */
  function FeedTo(s: Lines, cs: seq<char>, n: nat): (r: Lines)
    requires s.Valid() && n <= |cs|
    ensures r.Valid()
  {
    if n == 0 then s else Feed(FeedTo(s, cs, n - 1), cs[n - 1])
  }

  class Receiver {
    const one: array<char>
    const two: array<char>
    var active: array<char>
    var index: nat
    /** serial.cmd_buffer: the line the serial task reads. */
    var command: array?<char>
    ghost var delivered: seq<Buffer>

    /** The buffer handed to the serial task is never the one being filled. */
    ghost predicate Valid()
      reads this
    {
      && one != two && one.Length == two.Length == BUFFER_SIZE
      && (active == one || active == two)
      && index < BUFFER_SIZE
      && (command != null ==> command == Other())
    }

    ghost function Other(): array<char>
      reads this
    {
      if active == one then two else one
    }

    ghost function View(): (v: Lines)
      requires Valid()
      reads this, one, two
      ensures v.Valid()
    {
      Lines(active[..], Other()[..], index, delivered)
    }

    constructor ()
      ensures Valid() && fresh(one) && fresh(two) && command == null && index == 0 && delivered == []
    {
      one := new char[BUFFER_SIZE](_ => NUL);
      two := new char[BUFFER_SIZE](_ => NUL);
      active := one;
      index := 0;
      command := null;
      delivered := [];
    }

    /** Hands the active buffer to the serial task and goes on with the other one. */
    method HandOver()
      requires Valid()
      modifies this
      ensures Valid() && command == old(active) && View() == Deliver(old(View()), old(active[..]))
    {
      command := active;
      delivered := delivered + [active[..]];
      active := if active == one then two else one;
      index := 0;
    }

    method Receive(c: char)
      requires Valid()
      modifies this, one, two
      ensures Valid() && View() == Feed(old(View()), c)
      ensures !Letter(c) && !Plain(c) ==> command == old(active)
      ensures Letter(c) || Plain(c) ==> command == old(command) && Other()[..] == old(Other()[..])
    {
      if Letter(c) {
        index := 0;
        active[0] := c;
      } else if c == HELP {
        active[0] := c;
        active[1] := NUL;
        HandOver();
      } else if c == EOL {
        active[index] := NUL;
        HandOver();
      } else {
        active[index] := c;
      }
      if index < BUFFER_SIZE - 1 {
        index := index + 1;
      }
    }

    /** UART_IRQHandler: empties the receive FIFO. */
    method Interrupt(fifo: seq<char>)
      requires Valid()
      modifies this, one, two
      ensures Valid() && View() == FeedTo(old(View()), fifo, |fifo|)
    {
      var i := 0;
      while i < |fifo|
        invariant 0 <= i <= |fifo|
        invariant Valid() && View() == FeedTo(old(View()), fifo, i)
      {
        Receive(fifo[i]);
        i := i + 1;
      }
    }
  }

  // ---- command lines ----

  /** At `p` a command letter comes, then plain bytes, then at `e` the end of the line. */
  predicate CommandLine(cs: seq<char>, p: nat, e: nat) {
    && p < e < |cs| && Letter(cs[p]) && cs[e] == EOL
    && forall k :: p < k < e ==> Plain(cs[k])
  }

  /** How many of `n` argument bytes fit between the letter and the terminator. */
  function Kept(n: nat): nat {
    if n <= BUFFER_SIZE - 2 then n else BUFFER_SIZE - 2
  }

  lemma {:induction false} Assembled(s: Lines, cs: seq<char>, p: nat, e: nat, k: nat)
    requires s.Valid() && CommandLine(cs, p, e) && p < k <= e
    ensures var r := FeedTo(s, cs, k);
            && r.index == Kept(k - p - 1) + 1
            && r.active[..r.index] == cs[p..p + r.index]
            && r.delivered == FeedTo(s, cs, p).delivered
            && r.other == FeedTo(s, cs, p).other
  {
    var before := FeedTo(s, cs, k - 1);
    assert FeedTo(s, cs, k) == Feed(before, cs[k - 1]);
    assert Kept(0) == 0;
    hide FeedTo, Feed, Letter, Plain, Kept;
    if k == p + 1 {
      LetterFed(before, cs[p]);
    } else {
      Assembled(s, cs, p, e, k - 1);
      PlainKept(before, cs, p, k);
    }
  }

  lemma PlainKept(s: Lines, cs: seq<char>, p: nat, k: nat)
    requires s.Valid() && p + 1 < k <= |cs| && Plain(cs[k - 1])
    requires s.index == Kept(k - p - 2) + 1 && s.active[..s.index] == cs[p..p + s.index]
    ensures var r := Feed(s, cs[k - 1]);
            && r.index == Kept(k - p - 1) + 1 && r.active[..r.index] == cs[p..p + r.index]
            && r.other == s.other && r.delivered == s.delivered
  {
    PlainFed(s, cs[k - 1]);
    hide Feed, Plain;
    if s.index < BUFFER_SIZE - 1 {
      SliceGrows(cs, p, s.index);
    }
  }

  lemma SliceGrows(cs: seq<char>, p: nat, n: nat)
    requires p + n < |cs|
    ensures cs[p..p + n] + [cs[p + n]] == cs[p..p + n + 1]
  {}

  lemma LetterFed(s: Lines, c: char)
    requires s.Valid() && Letter(c)
    ensures var r := Feed(s, c);
            r.index == 1 && r.active[..1] == [c] && r.other == s.other && r.delivered == s.delivered
  {}

  lemma PlainFed(s: Lines, c: char)
    requires s.Valid() && Plain(c)
    ensures var r := Feed(s, c);
            && r.other == s.other && r.delivered == s.delivered
            && if s.index < BUFFER_SIZE - 1 then
                 r.index == s.index + 1 && r.active[..r.index] == s.active[..s.index] + [c]
               else
                 r.index == s.index && r.active[..r.index] == s.active[..s.index]
  {}

  /** Line assembly. In any byte stream, whatever came before, a command letter and the plain bytes behind it are
      delivered at the end of the line, once: the letter, at most 18 argument bytes, and a terminator. Until then
      nothing is delivered, and the buffer the serial task may be reading is not touched. */
  lemma LineDelivered(s: Lines, cs: seq<char>, p: nat, e: nat)
    requires s.Valid() && CommandLine(cs, p, e)
    ensures var before, after := FeedTo(s, cs, p), FeedTo(s, cs, e + 1);
            var n := Kept(e - p - 1);
            && |after.delivered| == |before.delivered| + 1 && after.delivered[..|before.delivered|] == before.delivered
            && var line := after.delivered[|before.delivered|];
            && line[..n + 1] == cs[p..p + n + 1] && line[n + 1] == NUL
            && after.other == line
    ensures forall k :: p < k <= e ==>
              && FeedTo(s, cs, k).delivered == FeedTo(s, cs, p).delivered
              && FeedTo(s, cs, k).other == FeedTo(s, cs, p).other
  {
    forall k | p < k <= e
      ensures FeedTo(s, cs, k).delivered == FeedTo(s, cs, p).delivered
      ensures FeedTo(s, cs, k).other == FeedTo(s, cs, p).other
    {
      Assembled(s, cs, p, e, k);
    }
    Assembled(s, cs, p, e, e);
    assert FeedTo(s, cs, e + 1) == Feed(FeedTo(s, cs, e), EOL);
  }

  // ---- every line ----

  /** The bytes that end a line. */
  predicate Ends(c: char) {
    c == EOL || c == HELP
  }

  /** How many of the first `n` bytes end a line. */
  function Endings(cs: seq<char>, n: nat): nat
    requires n <= |cs|
  {
    if n == 0 then 0 else Endings(cs, n - 1) + if Ends(cs[n - 1]) then 1 else 0
  }

  /** What is handed over at the end of a line: the bytes assembled so far and a terminator behind them, or a question
      mark alone. The other buffer is filled next, and its first byte without a command letter goes to index 1. */
  lemma EndFed(s: Lines, c: char)
    requires s.Valid() && Ends(c)
    ensures var r := Feed(s, c);
            && |r.delivered| == |s.delivered| + 1 && r.delivered[..|s.delivered|] == s.delivered
            && r.index == 1 && r.active == s.other
            && var line := r.delivered[|s.delivered|];
            && r.other == line
            && if c == HELP then line[0] == '?' && line[1] == NUL && line[2..] == s.active[2..]
               else line[..s.index] == s.active[..s.index] && line[s.index] == NUL
  {}

  /** Lines are handed over when they end, and at no other time: over every byte stream, one for each EOL or question
      mark. */
  lemma {:induction false} LinesCounted(s: Lines, cs: seq<char>, n: nat)
    requires s.Valid() && n <= |cs|
    ensures |FeedTo(s, cs, n).delivered| == |s.delivered| + Endings(cs, n)
    ensures s.delivered <= FeedTo(s, cs, n).delivered
  {
    if n > 0 {
      LinesCounted(s, cs, n - 1);
      var before := FeedTo(s, cs, n - 1);
      if Ends(cs[n - 1]) { EndFed(before, cs[n - 1]); }
    }
  }

  /** A question mark is understood at once, whatever came before. */
  lemma HelpDelivered(s: Lines, cs: seq<char>, e: nat)
    requires s.Valid() && e < |cs| && cs[e] == HELP
    ensures var before, after := FeedTo(s, cs, e), FeedTo(s, cs, e + 1);
            && |after.delivered| == |before.delivered| + 1
            && after.delivered[|before.delivered|][0] == '?' && after.delivered[|before.delivered|][1] == NUL
  {
    EndFed(FeedTo(s, cs, e), HELP);
    assert FeedTo(s, cs, e + 1) == Feed(FeedTo(s, cs, e), HELP);
    hide FeedTo, Feed;
  }
}
