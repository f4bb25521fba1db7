/** The prime-time server (1-prime-time/main.zig): requests on lines, answered as they arrive until the
    first malformed one. What the JSON library makes of a line is a parameter. */
module PrimeTime {
  import opened Slices
  import opened Framing
  import opened Machines
  import opened Words
  import opened Lines

  // ----- Trial division

  ghost predicate Prime(n: int) {
    n >= 2 && forall d {:trigger n % d} :: 2 <= d < n ==> n % d != 0
  }

  /** The largest number whose square is a 64-bit integer. */
  const ROOT := 3037000499
  const SQUARE := 9223372030926249001
  const I64_MAX := 0x7fff_ffff_ffff_ffff

  /** The numbers on which `i * i` leaves the 64-bit range. */
  ghost predicate Overflows(n: int) {
    n >= SQUARE && Prime(n)
  }

  lemma Monotone(a: int, b: int, n: int)
    requires a <= b && n >= 0
    ensures a * n <= b * n
  {
    assert (b - a) * n >= 0;
    assert (b - a) * n == b * n - a * n;
  }

  lemma Multiple(d: int, e: int)
    requires e > 0
    ensures d * e % e == 0
  {
    var q, r := d * e / e, d * e % e;
    assert d * e == q * e + r;
    assert (d - q) * e == r by { assert (d - q) * e == d * e - q * e; }
    if d - q >= 1 { Monotone(1, d - q, e); }
    if d - q <= -1 { Monotone(d - q, -1, e); }
  }

  lemma Partner(n: int, d: int, e: int, i: int)
    requires n == d * e && 2 <= i <= d < n < i * i
    ensures 2 <= e < i && n % e == 0
  {
    assert e >= 2 by {
      if e <= 1 { Monotone(e, 1, d); }
    }
    assert e < i by {
      if e >= i {
        Monotone(i, e, d);
        Monotone(i, d, i);
      }
    }
    Multiple(d, e);
  }

  /** A divisor above the root of `n` has a partner below it. */
  lemma SmallDivisor(n: int, d: int, i: int)
    requires 2 <= d < n && n % d == 0 && i >= 2 && n < i * i
    ensures exists e :: 2 <= e < i && n % e == 0
  {
    var e := n / d;
    assert n == d * e;
    if d < i {
      assert n % d == 0;
    } else {
      Partner(n, d, e, i);
    }
  }

  /** Exactly the squares up to ROOT fit in 64 bits. */
  lemma SquareFitsIff(i: int)
    requires i >= 2
    ensures i * i <= 9223372036854775807 <==> i <= 3037000499
    ensures i <= ROOT ==> i * i <= SQUARE
    ensures i == ROOT ==> i * i == SQUARE
  {
    if i <= ROOT {
      Monotone(i, ROOT, i);
      Monotone(i, ROOT, ROOT);
    } else {
      Monotone(ROOT + 1, i, i);
      Monotone(ROOT + 1, i, ROOT + 1);
    }
  }

  datatype Verdict = TooLarge | Decided(prime: bool)

  ghost predicate NoneBelow(n: int, i: int) {
    forall d {:trigger n % d} :: 2 <= d < i ==> n % d != 0
  }

  lemma BelowSquare(i: int)
    requires i >= 2
    ensures i < i * i
  {
    Monotone(2, i, i);
  }

  lemma NoSmallDivisor(n: int, i: int)
    requires n >= 2 && i >= 2 && n < i * i
    requires NoneBelow(n, i)
    ensures Prime(n)
  {
    forall d | 2 <= d < n
      ensures n % d != 0
    {
      if n % d == 0 {
        SmallDivisor(n, d, i);
        assert false;
      }
    }
  }

  /** is_prime: exact wherever `i * i` stays within 64 bits, and it leaves them only on primes from
      the square of ROOT on; `TooLarge` is that overflow. */
  method IsPrime(number: int) returns (r: Verdict)
    requires number <= I64_MAX
    ensures r == TooLarge <==> number >= 9223372030926249001 && Prime(number)
    ensures r.Decided? ==> (r.prime <==> Prime(number))
  {
    if number <= 1 { return Decided(false); }
    var i := 2;
    while true
      invariant 2 <= i <= ROOT + 1 && NoneBelow(number, i)
      invariant i > ROOT ==> number >= SQUARE
      decreases ROOT + 1 - i
    {
      SquareFitsIff(i);
      var square := i * i;
      if square > I64_MAX {
        NoSmallDivisor(number, i);
        return TooLarge;
      }
      if square > number {
        break;
      }
      if number % i == 0 {
        BelowSquare(i);
        return Decided(false);
      }
      i := i + 1;
    }
    NoSmallDivisor(number, i);
    SquareFitsIff(i);
    r := Decided(true);
  }

  // ----- Requests

  datatype Parsed<+T> = Rejected | Accepted(value: T)

  /** What matters of a JSON value. */
  datatype Json =
    | Object(members: map<string, Json>)
    | Text(text: string)
    | Integer(number: int)
    | Float
    | NumberText
    | Other

  /** parse_request: the number asked about, where 0 stands for every number that is not an integer of
      64 bits. */
  function ParseRequest(json: string -> Parsed<Json>, line: string): Parsed<int> {
    if line == "" then Rejected
    else
      match json(line)
      case Accepted(Object(members)) =>
        if "method" !in members || members["method"] != Text("isPrime") || "number" !in members then Rejected
        else (
          match members["number"]
          case Integer(n) => Accepted(n)
          case Float => Accepted(0)
          case NumberText => Accepted(0)
          case _ => Rejected
        )
      case _ => Rejected
  }

  const MALFORMED := "{\"malformed request received!!!!\"}\n"

  function Answer(prime: bool): string {
    "{\"method\":\"isPrime\",\"prime\":" + (if prime then "true" else "false") + "}\n"
  }

  // ----- The server as a machine over lines

  datatype Status = Open | Malformed | Overflowed

  ghost function Step(parse: string -> Parsed<int>, s: Status, line: string): Status {
    if s != Open then s
    else
      match parse(line)
      case Rejected => Malformed
      case Accepted(n) => if Overflows(n) then Overflowed else Open
  }

  ghost function Respond(parse: string -> Parsed<int>, line: string): string {
    match parse(line)
    case Rejected => MALFORMED
    case Accepted(n) => Answer(Prime(n))
  }

  ghost function Server(parse: string -> Parsed<int>): Machine<Status, string, char> {
    Machine((s, line) => Step(parse, s, line), (s, line) => if s == Open then Respond(parse, line) else "")
  }

  // ----- The lines of a connection

  predicate IsNewline(c: char) {
    c == '\n'
  }

  function LinesIn(text: string): seq<string> {
    LinesOf(IsNewline, text)
  }

  /** What is handed over ends with the last newline. */
  function ByLine(): Wiring<string, char> {
    Wiring(text => LastEnd(IsNewline, text), LinesIn)
  }

  lemma ByLineSplits()
    ensures Splits(ByLine())
  {
    forall buf: string, b: string
      ensures LinesIn(buf[..Cut(ByLine(), buf)] + b) == LinesIn(buf[..Cut(ByLine(), buf)]) + LinesIn(b)
    {
      LastEndSpec(IsNewline, buf);
      LinesAppend(IsNewline, buf[..Cut(ByLine(), buf)], b);
    }
  }

  // ----- The loops

  /** Numbers are 64-bit integers. */
  ghost predicate Fits(parse: string -> Parsed<int>) {
    forall line :: parse(line).Accepted? ==> parse(line).value <= I64_MAX
  }

  lemma {:induction false} StoppedStays(parse: string -> Parsed<int>, s: Status, lines: seq<string>)
    requires s != Open
    ensures After(Server(parse), s, lines) == s && Output(Server(parse), s, lines) == ""
    decreases |lines|
  {
    if lines != [] {
      StoppedStays(parse, s, lines[1..]);
    }
  }

  /** What one line does, and its answer unless the square overflows. */
  ghost predicate Answers(parse: string -> Parsed<int>, line: string, s: Status, answer: string) {
    s == Step(parse, Open, line) && (s != Overflowed ==> answer == Respond(parse, line))
  }

  lemma AheadStopped<S, M, B>(m: Machine<S, M, B>, s0: S, all: seq<M>, s: S, sent: seq<B>, rest: seq<M>)
    requires Ahead(m, s0, all, s, sent, rest) && After(m, s, rest) == s && Output(m, s, rest) == []
    ensures s == After(m, s0, all) && sent == Output(m, s0, all)
  {
    assert sent + [] == sent;
  }

  lemma LineDone(parse: string -> Parsed<int>, all: seq<string>, line: string, later: seq<string>, sent: string,
                 s: Status, answer: string)
    requires Ahead(Server(parse), Open, all, Open, sent, [line] + later)
    requires Answers(parse, line, s, answer)
    ensures s == Open ==> Ahead(Server(parse), Open, all, Open, sent + answer, later)
    ensures s != Open ==> s == After(Server(parse), Open, all)
    ensures s == Malformed ==> sent + answer == Output(Server(parse), Open, all)
  {
    var m, reply := Server(parse), Respond(parse, line);
    AheadCons(m, Open, all, Open, sent, line, later, s, reply);
    if s != Open {
      StoppedStays(parse, s, later);
      AheadStopped(m, Open, all, s, sent + reply, later);
    }
  }

  /** processMessages: the answers to the complete lines, up to the first malformed one. */
  method ProcessMessages(parse: string -> Parsed<int>, messages: string) returns (status: Status, sent: string)
    requires Fits(parse)
    ensures status == After(Server(parse), Open, LinesIn(messages))
    ensures status != Overflowed ==> sent == Output(Server(parse), Open, LinesIn(messages))
  {
    var start := 0;
    sent := "";
    ghost var m, all := Server(parse), LinesIn(messages);
    ghost var text, rest := messages, all;
    AheadStart(m, Open, all);
    assert messages[0..] == messages;
    while true
      invariant start <= |messages| && text == messages[start..] && rest == LinesIn(text)
      invariant Ahead(m, Open, all, Open, sent, rest)
      decreases |messages| - start
    {
      var idx := EndFrom(IsNewline, messages, start);
      LinesFrom(IsNewline, messages, start, idx);
      if idx == |messages| {
        AheadDone(m, Open, all, Open, sent);
        return Open, sent;
      }
      text := messages[idx + 1..];
      rest := LinesIn(text);
      var s, answer := AnswerLine(parse, messages[start..idx]);
      LineDone(parse, all, messages[start..idx], rest, sent, s, answer);
      if s == Overflowed { return s, sent; }
      sent := sent + answer;
      if s == Malformed { return s, sent; }
      start := idx + 1;
    }
  }

  method AnswerLine(parse: string -> Parsed<int>, line: string) returns (s: Status, answer: string)
    requires Fits(parse)
    ensures Answers(parse, line, s, answer)
  {
    match parse(line) {
      case Rejected =>
        s, answer := Malformed, MALFORMED;
      case Accepted(n) =>
        var verdict := IsPrime(n);
        match verdict {
          case TooLarge => s, answer := Overflowed, "";
          case Decided(prime) => s, answer := Open, Answer(prime);
        }
    }
  }

  lemma FinalStopped(parse: string -> Parsed<int>, c: Served<Status, char>, rest: string)
    requires c.state != Open
    ensures Final(Server(parse), ByLine(), c, rest) == (c.state, c.sent)
  {
    StoppedStays(parse, c.state, LinesIn(c.fifo + rest));
    assert c.sent + "" == c.sent;
  }

  lemma FinalAtStart(parse: string -> Parsed<int>, input: string)
    ensures Final(Server(parse), ByLine(), Served(Open, "", ""), input) ==
            (After(Server(parse), Open, LinesIn(input)), Output(Server(parse), Open, LinesIn(input)))
  {
    assert "" + input == input;
    var out := Output(Server(parse), Open, LinesIn(input));
    assert "" + out == out;
  }

  lemma FinalAtEnd(parse: string -> Parsed<int>, c: Served<Status, char>)
    requires LinesIn(c.fifo) == []
    ensures Final(Server(parse), ByLine(), c, "") == (c.state, c.sent)
  {
    assert c.fifo + "" == c.fifo;
    assert c.sent + "" == c.sent;
  }

  /** What one read does to the connection. */
  ghost predicate ReadOnce(parse: string -> Parsed<int>, recv: string, chunk: string,
                           s: Status, left: string, answers: string) {
    var c := Read(Server(parse), ByLine(), Served(Open, recv, ""), chunk);
    LinesIn(left) == [] && s == c.state && left == c.fifo && (s != Overflowed ==> answers == c.sent)
  }

  /** What `sent` and the answers to come amount to is fixed by the input. */
  ghost predicate Owes(parse: string -> Parsed<int>, input: string, recv: string, sent: string, rest: string) {
    Final(Server(parse), ByLine(), Served(Open, recv, sent), rest) ==
    (After(Server(parse), Open, LinesIn(input)), Output(Server(parse), Open, LinesIn(input)))
  }

  lemma ReadDone(parse: string -> Parsed<int>, input: string, recv: string, sent: string, chunk: string, rest: string,
                 s: Status, left: string, answers: string)
    requires Owes(parse, input, recv, sent, chunk + rest) && ReadOnce(parse, recv, chunk, s, left, answers)
    ensures s == Open ==> Owes(parse, input, left, sent + answers, rest)
    ensures s != Open ==> s == After(Server(parse), Open, LinesIn(input))
    ensures s == Malformed ==> sent + answers == Output(Server(parse), Open, LinesIn(input))
  {
    var m, c := Server(parse), Served(Open, recv, sent);
    ByLineSplits();
    ReadKeepsFinal(m, ByLine(), c, chunk, rest);
    SentBefore(m, ByLine(), c, chunk);
    if s != Open {
      FinalStopped(parse, Read(m, ByLine(), c, chunk), rest);
    }
  }

  /** One round of the connection's loop. */
  method HandleRead(parse: string -> Parsed<int>, recv: string, chunk: string)
      returns (status: Status, left: string, answers: string)
    requires Fits(parse) && LinesIn(recv) == []
    ensures ReadOnce(parse, recv, chunk, status, left, answers)
  {
    var buf := recv + chunk;
    var idx := LastEnd(IsNewline, buf);
    LastEndSpec(IsNewline, buf);
    NoLine(IsNewline, buf[idx..]);
    left := buf[idx..];
    if idx == 0 {
      assert buf[..0] == "";
      return Open, left, "";
    }
    status, answers := ProcessMessages(parse, buf[..idx]);
    assert "" + answers == answers;
  }

  /** handle_connection: however the input is cut into reads, what is sent are the answers to its
      complete lines, in order, up to the first malformed one. */
  method HandleConnection(parse: string -> Parsed<int>, chunks: seq<string>) returns (status: Status, sent: string)
    requires Fits(parse)
    ensures status == After(Server(parse), Open, LinesIn(Concat(chunks)))
    ensures status != Overflowed ==> sent == Output(Server(parse), Open, LinesIn(Concat(chunks)))
  {
    var recv := "";
    sent := "";
    FinalAtStart(parse, Concat(chunks));
    for k := 0 to |chunks|
      invariant LinesIn(recv) == []
      invariant Owes(parse, Concat(chunks), recv, sent, Concat(chunks[k..]))
    {
      assert chunks[k..][0] == chunks[k] && chunks[k..][1..] == chunks[k + 1..];
      var s, left, answers := HandleRead(parse, recv, chunks[k]);
      ReadDone(parse, Concat(chunks), recv, sent, chunks[k], Concat(chunks[k + 1..]), s, left, answers);
      if s == Overflowed { return s, sent; }
      sent := sent + answers;
      if s == Malformed { return s, sent; }
      recv := left;
    }
    FinalAtEnd(parse, Served(Open, recv, sent));
    status := Open;
  }

  // ----- What that output is

  ghost predicate Answered(parse: string -> Parsed<int>, line: string) {
    Step(parse, Open, line) == Open
  }

  ghost function Responses(parse: string -> Parsed<int>, lines: seq<string>): string {
    if lines == [] then "" else Respond(parse, lines[0]) + Responses(parse, lines[1..])
  }

  /** One response for each line, ending with the first line that is malformed. */
  lemma {:induction false} EndsAtFirstMalformed(parse: string -> Parsed<int>, lines: seq<string>, k: nat)
    requires k <= |lines| && forall i :: 0 <= i < k ==> Answered(parse, lines[i])
    ensures k == |lines| ==>
              After(Server(parse), Open, lines) == Open && Output(Server(parse), Open, lines) == Responses(parse, lines)
    ensures k < |lines| && parse(lines[k]) == Rejected ==>
              && After(Server(parse), Open, lines) == Malformed
              && Output(Server(parse), Open, lines) == Responses(parse, lines[..k]) + MALFORMED
    ensures k < |lines| && parse(lines[k]).Accepted? && Overflows(parse(lines[k]).value) ==>
              After(Server(parse), Open, lines) == Overflowed
    decreases |lines|
  {
    var m := Server(parse);
    if k > 0 {
      var rest := lines[1..];
      assert Answered(parse, lines[0]);
      assert forall i :: 0 <= i < k - 1 ==> rest[i] == lines[i + 1];
      EndsAtFirstMalformed(parse, rest, k - 1);
      assert lines[..k][1..] == rest[..k - 1];
      Assoc(Respond(parse, lines[0]), Responses(parse, rest[..k - 1]), MALFORMED);
    } else if lines != [] && Step(parse, Open, lines[0]) != Open {
      StoppedStays(parse, Step(parse, Open, lines[0]), lines[1..]);
      assert Respond(parse, lines[0]) + "" == Respond(parse, lines[0]);
    }
  }

  /** The three replies, letter by letter. */
  lemma Replies()
    ensures Answer(true) == "{\"method\":\"isPrime\",\"prime\":true}\n"
    ensures Answer(false) == "{\"method\":\"isPrime\",\"prime\":false}\n"
    ensures MALFORMED == "{\"malformed request received!!!!\"}\n"
    ensures Answer(true) != Answer(false) && Answer(true) != MALFORMED && Answer(false) != MALFORMED
  {
    assert MALFORMED[3] == 'a' && Answer(true)[3] == 'e' && Answer(false)[3] == 'e';
    var head := "{\"method\":\"isPrime\",\"prime\":";
    assert Answer(true)[|head|] == 't' && Answer(false)[|head|] == 'f';
  }

  /** The line is an object that asks whether a number is prime, and this is the number. */
  ghost predicate Asks(json: string -> Parsed<Json>, line: string, number: Json) {
    |line| > 0 && exists members ::
      && json(line) == Accepted(Object(members))
      && "method" in members && members["method"] == Text("isPrime")
      && "number" in members && members["number"] == number
  }

  /** What a line is answered: `true` exactly to a prime integer, `false` exactly to any other number, and
      the malformed reply to everything else. */
  lemma TrueMeansPrime(json: string -> Parsed<Json>, line: string)
    ensures var reply := Respond(l => ParseRequest(json, l), line);
            && (reply == "{\"method\":\"isPrime\",\"prime\":true}\n" <==>
                  exists n :: Asks(json, line, Integer(n)) && Prime(n))
            && (reply == "{\"method\":\"isPrime\",\"prime\":false}\n" <==>
                  || Asks(json, line, Float) || Asks(json, line, NumberText)
                  || exists n :: Asks(json, line, Integer(n)) && !Prime(n))
            && (reply == "{\"malformed request received!!!!\"}\n" <==>
                  && !Asks(json, line, Float) && !Asks(json, line, NumberText)
                  && forall n :: !Asks(json, line, Integer(n)))
  {
    Replies();
    assert !Prime(0);
    var parsed := ParseRequest(json, line);
    if parsed.Accepted? {
      var number := json(line).value.members["number"];
      assert Asks(json, line, number);
      assert number.Integer? ==> number == Integer(parsed.value);
    }
  }

  /** A line ends at the first newline. */
  lemma LineEnds(line: string, rest: string)
    requires forall i :: 0 <= i < |line| ==> line[i] != '\n'
    ensures LinesIn(line + "\n" + rest) == [line] + LinesIn(rest) && LinesIn(line) == []
  {
    LineFirst(IsNewline, line, '\n', rest);
    NoLine(IsNewline, line);
  }
}
