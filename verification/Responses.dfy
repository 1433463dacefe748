/**
  The response payloads (broker/network/protocol.go and the topic list of server.go): each
  encoder computes the size first and fills a buffer of that size, and a client's decoder
  recovers what was encoded.
 */
module Responses {
  import opened Bytes
  import opened Segments
  import opened Decimal
  import opened Protocol

  // ---------- lists of encoded items ----------

  ghost function ListBytes<T>(xs: seq<T>, f: T -> bytes): bytes {
    if xs == [] then [] else ListBytes(xs[..|xs| - 1], f) + f(xs[|xs| - 1])
  }

  lemma ListStep<T>(xs: seq<T>, f: T -> bytes, i: nat)
    requires i < |xs|
    ensures ListBytes(xs[..i + 1], f) == ListBytes(xs[..i], f) + f(xs[i])
  {
    var head := xs[..i + 1];
    assert head[..i] == xs[..i] && head[i] == xs[i];
  }

  lemma {:induction false} ListPrefix<T>(xs: seq<T>, f: T -> bytes, i: nat)
    requires i <= |xs|
    ensures ListBytes(xs[..i], f) <= ListBytes(xs, f)
  {
    if i == |xs| {
      assert xs[..i] == xs;
    } else {
      ListPrefix(xs[..|xs| - 1], f, i);
      assert xs[..|xs| - 1][..i] == xs[..i];
    }
  }

  /** Item i starts behind the items before it and ends within the list. */
  lemma ListFit<T>(xs: seq<T>, f: T -> bytes, i: nat)
    requires i < |xs|
    ensures ListBytes(xs[..i + 1], f) == ListBytes(xs[..i], f) + f(xs[i]) <= ListBytes(xs, f)
  {
    hide ListBytes;
    ListPrefix(xs, f, i + 1);
    ListStep(xs, f, i);
  }

  /** A count and the items. */
  ghost function Counted<T>(xs: seq<T>, f: T -> bytes): bytes {
    Put32(|xs| % B32) + ListBytes(xs, f)
  }

  type Reader<T> = (bytes, nat) -> Option<(T, nat)>

  /** n items from a position on that end at the end of the response. */
  function ReadItems<T>(b: bytes, pos: nat, n: nat, read: Reader<T>): Option<seq<T>>
    decreases n
  {
    if n == 0 then (if pos == |b| then Some([]) else None)
    else
      match read(b, pos)
      case None => None
      case Some((x, next)) =>
        match ReadItems(b, next, n - 1, read)
        case None => None
        case Some(rest) => Some([x] + rest)
  }

  function ReadCounted<T>(b: bytes, read: Reader<T>): Option<seq<T>> {
    if |b| < 4 then None else ReadItems(b, 4, Get32(b[..4]), read)
  }

  /** The reader undoes the encoder on these items, wherever they lie. */
  ghost predicate Undoes<T>(xs: seq<T>, f: T -> bytes, read: Reader<T>) {
    forall i, b, pos: nat :: 0 <= i < |xs| && At(b, pos, f(xs[i]))
      ==> read(b, pos) == Some((xs[i], pos + |f(xs[i])|))
  }

  lemma AtOffset(head: bytes, before: bytes, part: bytes, all: bytes)
    requires before + part <= all
    ensures At(head + all, |head| + |before|, part)
  {
    Layout2(all, before, part);
    assert (head + all)[|head| + |before|..|head| + |before| + |part|]
        == all[|before|..|before| + |part|];
  }

  lemma {:induction false} ReadFromItem<T>(xs: seq<T>, f: T -> bytes, read: Reader<T>, i: nat)
    requires Undoes(xs, f, read) && i <= |xs|
    ensures ReadItems(Counted(xs, f), 4 + |ListBytes(xs[..i], f)|, |xs| - i, read) == Some(xs[i..])
    decreases |xs| - i
  {
    hide Put32, ListBytes, At;
    if i < |xs| {
      ListFit(xs, f, i);
      AtOffset(Put32(|xs| % B32), ListBytes(xs[..i], f), f(xs[i]), ListBytes(xs, f));
      ReadFromItem(xs, f, read, i + 1);
      assert xs[i..] == [xs[i]] + xs[i + 1..];
    } else {
      assert xs[..i] == xs && xs[i..] == [];
    }
  }

  lemma CountedRoundTrip<T>(xs: seq<T>, f: T -> bytes, read: Reader<T>)
    requires Undoes(xs, f, read) && |xs| < B32
    ensures ReadCounted(Counted(xs, f), read) == Some(xs)
  {
    hide Put32, Get32, ReadItems, ListBytes, Undoes;
    GetPut32(|xs|);
    ReadFromItem(xs, f, read, 0);
    ListNone(f);
    assert Counted(xs, f)[..4] == Put32(|xs|);
    assert xs[..0] == [] && xs[0..] == xs;
  }

  lemma ListNone<T>(f: T -> bytes)
    ensures ListBytes([], f) == []
  {
  }

  // ---------- fetched messages ----------

  /** One message as EncodeFetchResponse writes it. */
  function MessageBytes(m: Message): (b: bytes)
    ensures |b| == 22 + |m.key| + |m.value|
  {
    Put64(m.offset % B64) + (Put64(Unsigned64(m.timestamp)) + (Put16(|m.key| % B16) + (m.key
      + (Put32(|m.value| % B32) + m.value))))
  }

  ghost function FetchBytes(ms: seq<Message>): bytes {
    Counted(ms, MessageBytes)
  }

  /** The first pass: the size of the response. */
  method FetchSize(ms: seq<Message>) returns (total: nat)
    ensures total == |FetchBytes(ms)|
  {
    hide Put32, ListBytes;
    total := 4;
    var i := 0;
    ListNone(MessageBytes);
    assert ms[..0] == [];
    while i < |ms|
      invariant 0 <= i <= |ms|
      invariant total == 4 + |ListBytes(ms[..i], MessageBytes)|
    {
      total := total + (8 + 8 + 2 + |ms[i].key| + 4 + |ms[i].value|);
      ListStep(ms, MessageBytes, i);
      i := i + 1;
    }
    assert ms[..i] == ms;
  }

  lemma SevenParts(w: bytes, a: bytes, b: bytes, c: bytes, d: bytes, e: bytes, f: bytes)
    ensures w + a + b + c + d + e + f == w + (a + (b + (c + (d + (e + f)))))
  {
  }

  /** One round of the second pass: the six fields of a message. */
  method EmitMessage(buf: array<byte>, start: nat, m: Message, ghost written: bytes)
    returns (curr: nat)
    requires Filled(buf, written) && start == |written|
    requires start + 22 + |m.key| + |m.value| <= buf.Length
    modifies buf
    ensures Filled(buf, written + MessageBytes(m)) && curr == start + |MessageBytes(m)|
  {
    hide Filled, Put16, Put32, Put64;
    curr := start;
    ghost var a, b := Put64(m.offset % B64), Put64(Unsigned64(m.timestamp));
    ghost var c, d := Put16(|m.key| % B16), Put32(|m.value| % B32);
    Emit(buf, curr, Put64(m.offset % B64), written);
    curr := curr + 8;
    Emit(buf, curr, Put64(Unsigned64(m.timestamp)), written + a);
    curr := curr + 8;
    Emit(buf, curr, Put16(|m.key| % B16), written + a + b);
    curr := curr + 2;
    Emit(buf, curr, m.key, written + a + b + c);
    curr := curr + |m.key|;
    Emit(buf, curr, Put32(|m.value| % B32), written + a + b + c + m.key);
    curr := curr + 4;
    Emit(buf, curr, m.value, written + a + b + c + m.key + d);
    curr := curr + |m.value|;
    SevenParts(written, a, b, c, m.key, d, m.value);
  }

  /** EncodeFetchResponse: the second pass fills exactly the bytes the first one counted. */
  method EncodeFetchResponse(ms: seq<Message>) returns (r: bytes)
    ensures r == FetchBytes(ms)
  {
    hide Put32, Filled, ListBytes;
    var totalSize := FetchSize(ms);
    var buf := new byte[totalSize](_ => 0);
    FilledStart(buf);
    Emit(buf, 0, Put32(|ms| % B32), []);
    var curr := 4;
    ghost var head := Put32(|ms| % B32);
    ListNone(MessageBytes);
    assert [] + head == head && head + [] == head && ms[..0] == [];
    var i := 0;
    while i < |ms|
      invariant 0 <= i <= |ms|
      invariant curr == 4 + |ListBytes(ms[..i], MessageBytes)|
      invariant Filled(buf, head + ListBytes(ms[..i], MessageBytes))
    {
      ListFit(ms, MessageBytes, i);
      ghost var w := ListBytes(ms[..i], MessageBytes);
      curr := EmitMessage(buf, curr, ms[i], head + w);
      assert head + w + MessageBytes(ms[i]) == head + (w + MessageBytes(ms[i]));
      i := i + 1;
    }
    assert ms[..i] == ms;
    FilledWhole(buf, FetchBytes(ms));
    return buf[..];
  }

  /** A client reading one message of a fetch response. */
  function ReadMessage(b: bytes, pos: nat): Option<(Message, nat)> {
    if pos + 18 > |b| then None else
    var keyLen: int := Get16(b[pos + 16..pos + 18]);
    var val := pos + 18 + keyLen;
    if val + 4 > |b| then None else
    var valLen: int := Get32(b[val..val + 4]);
    if val + 4 + valLen > |b| then None else
    var m := Message(Get64(b[pos..pos + 8]), Signed64(Get64(b[pos + 8..pos + 16])),
                     b[pos + 18..val], b[val + 4..val + 4 + valLen]);
    Some((m, val + 4 + valLen))
  }

  function DecodeFetchResponse(b: bytes): Option<seq<Message>> {
    ReadCounted(b, ReadMessage)
  }

  /** Messages that the response's fields can hold. */
  predicate Measured(m: Message) {
    m.offset < B64 && |m.key| < B16 && |m.value| < B32
  }

  lemma MessageLayout(b: bytes, pos: nat, m: Message)
    requires At(b, pos, MessageBytes(m))
    ensures At(b, pos, Put64(m.offset % B64)) && At(b, pos + 8, Put64(Unsigned64(m.timestamp)))
    ensures At(b, pos + 16, Put16(|m.key| % B16)) && At(b, pos + 18, m.key)
    ensures At(b, pos + 18 + |m.key|, Put32(|m.value| % B32))
    ensures At(b, pos + 22 + |m.key|, m.value)
  {
    hide Put16, Put32, Put64, At;
    var e := Put32(|m.value| % B32) + m.value;
    var d := Put16(|m.key| % B16) + (m.key + e);
    var c := Put64(Unsigned64(m.timestamp)) + d;
    AtConcat(b, pos, Put64(m.offset % B64), c);
    AtConcat(b, pos + 8, Put64(Unsigned64(m.timestamp)), d);
    AtConcat(b, pos + 16, Put16(|m.key| % B16), m.key + e);
    AtConcat(b, pos + 18, m.key, e);
    AtConcat(b, pos + 18 + |m.key|, Put32(|m.value| % B32), m.value);
  }

  lemma ReadWritten(b: bytes, pos: nat, m: Message)
    requires Measured(m) && At(b, pos, MessageBytes(m))
    ensures ReadMessage(b, pos) == Some((m, pos + |MessageBytes(m)|))
  {
    hide Get16, Get32, Get64, Put16, Put32, Put64, MessageBytes;
    MessageLayout(b, pos, m);
    GetPut16(|m.key|);
    GetPut32(|m.value|);
    GetPut64(m.offset);
    GetPut64(Unsigned64(m.timestamp));
  }

  /** A fetch response decodes to exactly the messages it was made from. */
  lemma FetchRoundTrip(ms: seq<Message>)
    requires |ms| < B32 && forall i :: 0 <= i < |ms| ==> Measured(ms[i])
    ensures DecodeFetchResponse(FetchBytes(ms)) == Some(ms)
  {
    hide ReadMessage, MessageBytes, Counted, ReadCounted, At, Measured;
    forall i, b, pos: nat | 0 <= i < |ms| && At(b, pos, MessageBytes(ms[i]))
      ensures ReadMessage(b, pos) == Some((ms[i], pos + |MessageBytes(ms[i])|))
    {
      ReadWritten(b, pos, ms[i]);
    }
    CountedRoundTrip(ms, MessageBytes, ReadMessage);
  }

  // ---------- the topic list ----------

  datatype TopicInfo = TopicInfo(name: bytes, partitions: nat, messages: nat)

  function TopicBytes(t: TopicInfo): (b: bytes)
    ensures |b| == 14 + |t.name|
  {
    Put16(|t.name| % B16) + (t.name + (Put32(t.partitions % B32) + Put64(t.messages % B64)))
  }

  method ListSize(ts: seq<TopicInfo>) returns (total: nat)
    ensures total == |Counted(ts, TopicBytes)|
  {
    hide Put32, ListBytes;
    total := 4;
    var i := 0;
    ListNone(TopicBytes);
    assert ts[..0] == [];
    while i < |ts|
      invariant 0 <= i <= |ts|
      invariant total == 4 + |ListBytes(ts[..i], TopicBytes)|
    {
      total := total + (2 + |ts[i].name| + 4 + 8);
      ListStep(ts, TopicBytes, i);
      i := i + 1;
    }
    assert ts[..i] == ts;
  }

  method EmitTopic(buf: array<byte>, start: nat, t: TopicInfo, ghost written: bytes)
    returns (curr: nat)
    requires Filled(buf, written) && start == |written| && start + 14 + |t.name| <= buf.Length
    modifies buf
    ensures Filled(buf, written + TopicBytes(t)) && curr == start + |TopicBytes(t)|
  {
    hide Filled, Put16, Put32, Put64;
    curr := start;
    ghost var a, b, c := Put16(|t.name| % B16), Put32(t.partitions % B32), Put64(t.messages % B64);
    Emit(buf, curr, Put16(|t.name| % B16), written);
    curr := curr + 2;
    Emit(buf, curr, t.name, written + a);
    curr := curr + |t.name|;
    Emit(buf, curr, Put32(t.partitions % B32), written + a + t.name);
    curr := curr + 4;
    Emit(buf, curr, Put64(t.messages % B64), written + a + t.name + b);
    curr := curr + 8;
    assert written + a + t.name + b + c == written + (a + (t.name + (b + c)));
  }

  /** The two passes of handleListTopics over the topics, in the order it is given them. */
  method EncodeTopicList(ts: seq<TopicInfo>) returns (r: bytes)
    ensures r == Counted(ts, TopicBytes)
  {
    hide Put32, Filled, ListBytes;
    var totalSize := ListSize(ts);
    var buf := new byte[totalSize](_ => 0);
    FilledStart(buf);
    Emit(buf, 0, Put32(|ts| % B32), []);
    var curr := 4;
    ghost var head := Put32(|ts| % B32);
    ListNone(TopicBytes);
    assert [] + head == head && head + [] == head && ts[..0] == [];
    var i := 0;
    while i < |ts|
      invariant 0 <= i <= |ts|
      invariant curr == 4 + |ListBytes(ts[..i], TopicBytes)|
      invariant Filled(buf, head + ListBytes(ts[..i], TopicBytes))
    {
      ListFit(ts, TopicBytes, i);
      ghost var w := ListBytes(ts[..i], TopicBytes);
      curr := EmitTopic(buf, curr, ts[i], head + w);
      assert head + w + TopicBytes(ts[i]) == head + (w + TopicBytes(ts[i]));
      i := i + 1;
    }
    assert ts[..i] == ts;
    FilledWhole(buf, Counted(ts, TopicBytes));
    return buf[..];
  }

  function ReadTopic(b: bytes, pos: nat): Option<(TopicInfo, nat)> {
    if pos + 2 > |b| then None else
    var k := pos + 2 + Get16(b[pos..pos + 2]);
    if k + 12 > |b| then None else
    Some((TopicInfo(b[pos + 2..k], Get32(b[k..k + 4]), Get64(b[k + 4..k + 12])), k + 12))
  }

  lemma ReadTopicWritten(b: bytes, pos: nat, t: TopicInfo)
    requires |t.name| < B16 && t.partitions < B32 && t.messages < B64
    requires At(b, pos, TopicBytes(t))
    ensures ReadTopic(b, pos) == Some((t, pos + |TopicBytes(t)|))
  {
    hide Get16, Get32, Get64, Put16, Put32, Put64;
    var d := Put32(t.partitions) + Put64(t.messages);
    AtConcat(b, pos, Put16(|t.name|), t.name + d);
    AtConcat(b, pos + 2, t.name, d);
    AtConcat(b, pos + 2 + |t.name|, Put32(t.partitions), Put64(t.messages));
    GetPut16(|t.name|);
    GetPut32(t.partitions);
    GetPut64(t.messages);
  }

  /** A topic list decodes to exactly the names and counts it was made from. */
  lemma ListRoundTrip(ts: seq<TopicInfo>)
    requires |ts| < B32
    requires forall i :: 0 <= i < |ts|
               ==> |ts[i].name| < B16 && ts[i].partitions < B32 && ts[i].messages < B64
    ensures ReadCounted(Counted(ts, TopicBytes), ReadTopic) == Some(ts)
  {
    hide ReadTopic, TopicBytes, Counted, ReadCounted, At;
    forall i, b, pos: nat | 0 <= i < |ts| && At(b, pos, TopicBytes(ts[i]))
      ensures ReadTopic(b, pos) == Some((ts[i], pos + |TopicBytes(ts[i])|))
    {
      ReadTopicWritten(b, pos, ts[i]);
    }
    CountedRoundTrip(ts, TopicBytes, ReadTopic);
  }

  // ---------- fixed-size responses ----------

  /** EncodeProduceResponse. */
  method EncodeProduceResponse(partition: int32, offset: uint64) returns (r: bytes)
    ensures r == Put32(Unsigned32(partition)) + Put64(offset)
  {
    hide Put32, Put64, Filled;
    var buf := new byte[12](_ => 0);
    FilledStart(buf);
    Emit(buf, 0, Put32(Unsigned32(partition)), []);
    Emit(buf, 4, Put64(offset), [] + Put32(Unsigned32(partition)));
    assert [] + Put32(Unsigned32(partition)) == Put32(Unsigned32(partition));
    FilledWhole(buf, Put32(Unsigned32(partition)) + Put64(offset));
    return buf[..];
  }

  function DecodeProduceResponse(b: bytes): Option<(int32, uint64)> {
    if |b| != 12 then None else Some((Signed32(Get32(b[..4])), Get64(b[4..])))
  }

  lemma ProduceResponseRoundTrip(partition: int32, offset: uint64)
    ensures DecodeProduceResponse(Put32(Unsigned32(partition)) + Put64(offset))
         == Some((partition, offset))
  {
    hide Get32, Get64, Put32, Put64;
    var b := Put32(Unsigned32(partition)) + Put64(offset);
    assert b[..4] == Put32(Unsigned32(partition)) && b[4..] == Put64(offset);
    GetPut32(Unsigned32(partition));
    GetPut64(offset);
    Signs(Unsigned32(partition), partition);
  }

  /** The answer to an offset fetch: the offset and whether there is one. */
  function OffsetBytes(offset: uint64, found: bool): (b: bytes)
    ensures |b| == 9
  {
    Put64(offset) + [if found then 1 else 0]
  }

  lemma OffsetRoundTrip(offset: uint64, found: bool)
    ensures var b := OffsetBytes(offset, found);
            Get64(b[..8]) == offset && (b[8] == 1 <==> found)
  {
    hide Get64, Put64;
    assert OffsetBytes(offset, found)[..8] == Put64(offset);
    GetPut64(offset);
  }
}
