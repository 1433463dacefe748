/**
  Framing on a connection (broker/network/protocol.go, ReadRequest and WriteResponse): a
  stream of length-prefixed requests in, a stream of length-prefixed responses out.
 */
module Wire {
  import opened Bytes
  import opened Outcomes
  import opened Decimal

  datatype Call = Call(apiKey: uint16, id: uint32, payload: bytes)

  datatype Answer = Answer(id: uint32, code: uint16, payload: bytes)

  // ---------- requests ----------

  /** A frame whose length field holds its length. */
  predicate Framed(c: Call) { 6 + |c.payload| < B32 }

  function CallBytes(c: Call): (b: bytes)
    requires Framed(c)
    ensures |b| == 10 + |c.payload|
  {
    Put32(6 + |c.payload|) + (Put16(c.apiKey) + (Put32(c.id) + c.payload))
  }

  /** One request from the front of the stream, and the stream behind it. */
  function NextCall(input: bytes): Outcome<(Call, bytes)> {
    if |input| == 0 then Err(EOF)
    else if |input| < 4 then Err(UnexpectedEOF)
    else
      var n := Get32(input[..4]);
      var rest := input[4..];
      if |rest| < n then Err(if rest == [] then EOF else UnexpectedEOF)
      else if n < 6 then Panic
      else Ok((Call(Get16(rest[..2]), Get32(rest[2..6]), rest[6..n]), rest[n..]))
  }

  /** The requests a connection yields before the stream ends or breaks. */
  function Calls(input: bytes): seq<Call>
    decreases |input|
  {
    match NextCall(input)
    case Ok((c, rest)) => [c] + Calls(rest)
    case _ => []
  }

  /** How reading ends behind the last request: EOF, a broken frame, or a panic. */
  function Ending(input: bytes): Outcome<()>
    decreases |input|
  {
    match NextCall(input)
    case Ok((_, rest)) => Ending(rest)
    case Err(e) => Err(e)
    case Panic => Panic
  }

  function CallsBytes(cs: seq<Call>): bytes
    requires forall i :: 0 <= i < |cs| ==> Framed(cs[i])
  {
    if cs == [] then [] else CallBytes(cs[0]) + CallsBytes(cs[1..])
  }

  lemma NextWritten(c: Call, rest: bytes)
    requires Framed(c)
    ensures NextCall(CallBytes(c) + rest) == Ok((c, rest))
  {
    hide Put16, Put32, Get16, Get32;
    GetPut32(6 + |c.payload|);
    GetPut16(c.apiKey);
    GetPut32(c.id);
    var input := CallBytes(c) + rest;
    assert input[..4] == Put32(6 + |c.payload|);
    var body := input[4..];
    assert body == Put16(c.apiKey) + (Put32(c.id) + (c.payload + rest));
    assert body[..2] == Put16(c.apiKey);
    assert body[2..6] == Put32(c.id);
    assert body[6..6 + |c.payload|] == c.payload;
    assert body[6 + |c.payload|..] == rest;
  }

  /** Every concatenation of well-formed frames is read as exactly that list of requests. */
  lemma {:induction false} CallsRoundTrip(cs: seq<Call>)
    requires forall i :: 0 <= i < |cs| ==> Framed(cs[i])
    ensures Calls(CallsBytes(cs)) == cs && Ending(CallsBytes(cs)) == Err(EOF)
  {
    hide NextCall, CallBytes;
    if cs == [] {
      NextOfNothing();
    } else {
      NextWritten(cs[0], CallsBytes(cs[1..]));
      CallsRoundTrip(cs[1..]);
    }
  }

  /** How reading ends behind well-formed frames is how it ends on what follows them. */
  lemma {:induction false} FramesThen(cs: seq<Call>, more: bytes)
    requires forall i :: 0 <= i < |cs| ==> Framed(cs[i])
    ensures Calls(CallsBytes(cs) + more) == cs + Calls(more)
    ensures Ending(CallsBytes(cs) + more) == Ending(more)
  {
    hide NextCall, CallBytes;
    if cs == [] {
      assert [] + more == more && [] + Calls(more) == Calls(more);
    } else {
      var rest := CallsBytes(cs[1..]) + more;
      assert CallsBytes(cs) + more == CallBytes(cs[0]) + rest;
      NextWritten(cs[0], rest);
      NextShorter(cs[0], rest);
      FramesThen(cs[1..], more);
      assert [cs[0]] + (cs[1..] + Calls(more)) == cs + Calls(more);
    }
  }

  lemma NextShorter(c: Call, rest: bytes)
    requires Framed(c)
    ensures |rest| < |CallBytes(c) + rest|
  {
  }

  /**
    A client that disconnects within a frame: the frames in front of it are served and the cut
    one is not, whatever part of it has arrived.
   */
  lemma CutFrame(cs: seq<Call>, c: Call, m: nat)
    requires (forall i :: 0 <= i < |cs| ==> Framed(cs[i])) && Framed(c)
    requires 0 < m < |CallBytes(c)|
    ensures var input := CallsBytes(cs) + CallBytes(c)[..m];
            && Calls(input) == cs
            && Ending(input) == Err(if m == 4 then EOF else UnexpectedEOF)
  {
    hide CallBytes;
    var part := CallBytes(c)[..m];
    NextOfPart(c, m);
    FramesThen(cs, part);
    assert cs + [] == cs;
  }

  lemma NextOfPart(c: Call, m: nat)
    requires Framed(c) && 0 < m < |CallBytes(c)|
    ensures NextCall(CallBytes(c)[..m]) == Err(if m == 4 then EOF else UnexpectedEOF)
  {
    hide Put16, Put32, Get16, Get32;
    GetPut32(6 + |c.payload|);
    var part := CallBytes(c)[..m];
    if m >= 4 {
      assert part[..4] == Put32(6 + |c.payload|);
    }
  }

  /** A frame whose length field is below six panics behind the frames in front of it. */
  lemma ShortFrame(cs: seq<Call>, n: uint32, rest: bytes)
    requires (forall i :: 0 <= i < |cs| ==> Framed(cs[i])) && n < 6 && n <= |rest|
    ensures var input := CallsBytes(cs) + (Put32(n) + rest);
            Calls(input) == cs && Ending(input) == Panic
  {
    hide Put32, Get32;
    GetPut32(n);
    var last := Put32(n) + rest;
    assert last[..4] == Put32(n) && last[4..] == rest;
    assert NextCall(last) == Panic;
    FramesThen(cs, last);
    assert cs + [] == cs;
  }

  lemma NextOfNothing()
    ensures NextCall([]) == Err(EOF)
  {
  }

  // ---------- responses ----------

  function AnswerBytes(a: Answer): (b: bytes)
    ensures |b| == 10 + |a.payload|
  {
    Put32((6 + |a.payload|) % B32) + (Put32(a.id) + (Put16(a.code) + a.payload))
  }

  function AnswersBytes(answers: seq<Answer>): bytes {
    if answers == [] then []
    else AnswersBytes(answers[..|answers| - 1]) + AnswerBytes(answers[|answers| - 1])
  }

  lemma AnswersSnoc(answers: seq<Answer>, a: Answer)
    ensures AnswersBytes(answers + [a]) == AnswersBytes(answers) + AnswerBytes(a)
  {
    assert (answers + [a])[..|answers|] == answers;
  }

  /** A client reading one response from the front of a stream. */
  function NextAnswer(b: bytes): Option<(Answer, bytes)> {
    if |b| < 10 then None
    else
      var n := Get32(b[..4]);
      if n < 6 || |b| - 4 < n then None
      else Some((Answer(Get32(b[4..8]), Get16(b[8..10]), b[10..4 + n]), b[4 + n..]))
  }

  function Answers(b: bytes): Option<seq<Answer>>
    decreases |b|
  {
    if b == [] then Some([])
    else
      match NextAnswer(b)
      case None => None
      case Some((a, rest)) =>
        match Answers(rest)
        case None => None
        case Some(more) => Some([a] + more)
  }

  lemma NextAnswerWritten(a: Answer, rest: bytes)
    requires 6 + |a.payload| < B32
    ensures NextAnswer(AnswerBytes(a) + rest) == Some((a, rest))
  {
    hide Put16, Put32, Get16, Get32;
    GetPut32(6 + |a.payload|);
    GetPut32(a.id);
    GetPut16(a.code);
    var b := AnswerBytes(a) + rest;
    assert b == Put32(6 + |a.payload|) + (Put32(a.id) + (Put16(a.code) + (a.payload + rest)));
    assert b[..4] == Put32(6 + |a.payload|);
    assert b[4..8] == Put32(a.id);
    assert b[8..10] == Put16(a.code);
    assert b[10..10 + |a.payload|] == a.payload;
    assert b[10 + |a.payload|..] == rest;
  }

  lemma {:induction false} AnswersFront(answers: seq<Answer>)
    requires answers != []
    ensures AnswersBytes(answers) == AnswerBytes(answers[0]) + AnswersBytes(answers[1..])
  {
    hide AnswerBytes;
    var last := |answers| - 1;
    if last == 0 {
      assert answers[..last] == [] && answers[1..] == [];
    } else {
      var tail := answers[1..];
      AnswersFront(answers[..last]);
      assert answers[..last][1..] == tail[..last - 1] && tail[last - 1] == answers[last];
      assert AnswerBytes(answers[0]) + AnswersBytes(tail[..last - 1]) + AnswerBytes(answers[last])
          == AnswerBytes(answers[0]) + (AnswersBytes(tail[..last - 1]) + AnswerBytes(answers[last]));
    }
  }

  /** A client reading the first n responses of a stream. */
  function FirstAnswers(b: bytes, n: nat): Option<seq<Answer>>
    decreases n
  {
    if n == 0 then Some([])
    else
      match NextAnswer(b)
      case None => None
      case Some((a, rest)) =>
        match FirstAnswers(rest, n - 1)
        case None => None
        case Some(more) => Some([a] + more)
  }

  /** The length field of a response can hold its length. */
  predicate Sendable(a: Answer) { 6 + |a.payload| < B32 }

  predicate AllSendable(answers: seq<Answer>) {
    forall k :: 0 <= k < |answers| ==> Sendable(answers[k])
  }

  lemma SendableFront(answers: seq<Answer>)
    requires answers != []
    ensures AllSendable(answers) <==> Sendable(answers[0]) && AllSendable(answers[1..])
  {
    hide Sendable;
    assert forall k :: 0 < k < |answers| ==> answers[k] == answers[1..][k - 1];
  }

  /** The length of a longer response wraps, and a client reads a shorter payload or none. */
  lemma WrappedAnswer(a: Answer, rest: bytes)
    requires !Sendable(a)
    ensures match NextAnswer(AnswerBytes(a) + rest)
            case None => true
            case Some((read, _)) => |read.payload| < |a.payload|
  {
    hide Put16, Put32, Get16, Get32;
    GetPut32((6 + |a.payload|) % B32);
    var b := AnswerBytes(a) + rest;
    assert b[..4] == Put32((6 + |a.payload|) % B32);
  }

  /** The first n responses are read as they were written exactly if all of them are sendable. */
  lemma {:induction false} FirstExact(answers: seq<Answer>, n: nat)
    requires n <= |answers|
    ensures FirstAnswers(AnswersBytes(answers), n) == Some(answers[..n]) <==> AllSendable(answers[..n])
    decreases n
  {
    hide NextAnswer, AnswerBytes, AnswersBytes, Sendable, AllSendable;
    if n > 0 {
      var tail, first := answers[1..], answers[..n];
      AnswersFront(answers);
      FirstExact(tail, n - 1);
      assert first == [answers[0]] + tail[..n - 1] && first[1..] == tail[..n - 1];
      SendableFront(first);
      FrontRead(answers[0], AnswersBytes(tail));
    } else {
      NoneSendable();
    }
  }

  lemma NoneSendable()
    ensures AllSendable([])
  {
  }

  /** The response in front is read as it was written exactly if it is sendable. */
  lemma FrontRead(a: Answer, rest: bytes)
    ensures match NextAnswer(AnswerBytes(a) + rest)
            case None => !Sendable(a)
            case Some((read, behind)) => if Sendable(a) then read == a && behind == rest else read != a
    ensures AnswerBytes(a) + rest != []
  {
    hide NextAnswer, AnswerBytes;
    if Sendable(a) {
      NextAnswerWritten(a, rest);
    } else {
      WrappedAnswer(a, rest);
    }
  }

  /** Behind readable responses, one that is not sendable is read with a shorter payload, if at all. */
  lemma {:induction false} WrappedBehind(answers: seq<Answer>, n: nat, seen: seq<Answer>)
    requires n < |answers| && AllSendable(answers[..n]) && |seen| == n + 1
    requires FirstAnswers(AnswersBytes(answers), n + 1) == Some(seen)
    ensures !Sendable(answers[n]) ==> |seen[n].payload| < |answers[n].payload|
    decreases n
  {
    hide NextAnswer, AnswerBytes, AnswersBytes, Sendable, AllSendable;
    var tail := answers[1..];
    AnswersFront(answers);
    if n == 0 {
      if !Sendable(answers[0]) {
        WrappedAnswer(answers[0], AnswersBytes(tail));
      }
    } else {
      assert answers[..n][1..] == tail[..n - 1];
      SendableFront(answers[..n]);
      FrontRead(answers[0], AnswersBytes(tail));
      var more := FirstAnswers(AnswersBytes(tail), n).value;
      assert seen == [answers[0]] + more && seen[1..] == more;
      WrappedBehind(tail, n - 1, more);
      assert seen[n] == more[n - 1];
    }
  }

  /**
    A client recovers every correlation id, error code and payload, in order, if and only if
    every response is sendable.
   */
  lemma {:induction false} AnswersExact(answers: seq<Answer>)
    ensures Answers(AnswersBytes(answers)) == Some(answers) <==> AllSendable(answers)
    decreases |answers|
  {
    hide NextAnswer, AnswerBytes, AnswersBytes, Sendable, AllSendable;
    if answers == [] {
      NoAnswers();
      NoneSendable();
    } else {
      var tail := answers[1..];
      AnswersFront(answers);
      AnswersExact(tail);
      assert [answers[0]] + tail == answers;
      SendableFront(answers);
      FrontRead(answers[0], AnswersBytes(tail));
    }
  }

  lemma NoAnswers()
    ensures AnswersBytes([]) == []
  {
  }

  // ---------- the connection ----------

  class Conn {
    var input: bytes    // what the client has sent and the server has not read
    var output: bytes   // what the server has written

    constructor (input: bytes)
      ensures this.input == input && output == []
    {
      this.input, this.output := input, [];
    }

    /** io.ReadFull of n bytes. */
    method ReadFull(n: nat) returns (r: Outcome<bytes>)
      modifies `input
      ensures |old(input)| >= n ==> r == Ok(old(input)[..n]) && input == old(input)[n..]
      ensures |old(input)| < n
          ==> r == Err(if old(input) == [] then EOF else UnexpectedEOF) && input == []
    {
      if |input| >= n {
        r := Ok(input[..n]);
        input := input[n..];
      } else {
        r := Err(if input == [] then EOF else UnexpectedEOF);
        input := [];
      }
    }

    /** ReadRequest. */
    method ReadRequest() returns (r: Outcome<Call>)
      modifies `input
      ensures match NextCall(old(input))
              case Ok((c, rest)) => r == Ok(c) && input == rest
              case Err(e) => r == Err(e)
              case Panic => r == Panic
    {
      hide Get16, Get32;
      var prefix := ReadFull(4);
      match prefix {
        case Err(e) => return Err(e);
        case Panic => return Panic;
        case Ok(bytes) =>
          var totalLen := Get32(bytes);
          var body := ReadFull(totalLen);
          match body {
            case Err(e) => return Err(e);
            case Panic => return Panic;
            case Ok(buf) =>
              if !InRange(0, 2, |buf|) || !InRange(2, 6, |buf|) {
                return Panic;
              }
              ghost var rest := old(input)[4..];
              assert buf[2..6] == rest[2..6] && buf[6..] == rest[6..totalLen];
              assert buf[0..2] == rest[..2];
              assert input == rest[totalLen..];
              assert NextCall(old(input)).Ok?;
              return Ok(Call(Get16(buf[0..2]), Get32(buf[2..6]), buf[6..]));
          }
      }
    }

    /** WriteResponse: the ten-byte header, then the payload if there is one. */
    method WriteResponse(id: uint32, code: uint16, payload: bytes)
      modifies `output
      ensures output == old(output) + AnswerBytes(Answer(id, code, payload))
    {
      hide Put16, Put32, Filled;
      var totalLen: uint32 := (4 + 2 + |payload|) % B32;
      var header := new byte[10](_ => 0);
      ghost var a, b, c := Put32(totalLen), Put32(id), Put16(code);
      FilledStart(header);
      Emit(header, 0, Put32(totalLen), []);
      assert [] + a == a;
      Emit(header, 4, Put32(id), a);
      Emit(header, 8, Put16(code), a + b);
      FilledWhole(header, a + b + c);
      output := output + header[..];
      if |payload| > 0 {
        output := output + payload;
      }
      assert old(output) + (a + b + c) + payload == old(output) + (a + (b + (c + payload)));
      assert payload == [] ==> old(output) + (a + b + c) == old(output) + (a + b + c) + payload;
    }
  }
}
