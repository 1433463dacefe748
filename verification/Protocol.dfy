/**
  The payloads of the wire protocol (broker/network/protocol.go): the five request decoders
  with the code's uint16 length checks, and the request layouts they must accept.
 */
module Protocol {
  import opened Bytes

  /** How decoding ends: with a request, with ok == false, or by a slice out of range. */
  datatype Parsed<+T> = Parsed(value: T) | Refused | Crash {
    predicate IsFailure() { !Parsed? }

    function PropagateFailure<U>(): Parsed<U>
      requires IsFailure()
    {
      if Refused? then Refused else Crash
    }

    function Extract(): T
      requires Parsed?
    {
      value
    }
  }

  datatype Request =
    | Produce(topic: bytes, partition: int32, key: bytes, value: bytes)
    | Fetch(topic: bytes, partition: int32, offset: uint64, maxCount: uint32)
    | CreateTopic(topic: bytes, numPartitions: int32)
    | CommitOffset(group: bytes, topic: bytes, partition: int32, offset: uint64)
    | FetchOffset(group: bytes, topic: bytes, partition: int32)

  // ---------- decoding ----------

  /** payload[from:to] as Go evaluates it. */
  function Cut(p: bytes, from: int, to: int): Parsed<bytes> {
    if InRange(from, to, |p|) then Parsed(p[from..to]) else Crash
  }

  function Cut16(p: bytes, at: nat): Parsed<uint16> {
    var b :- Cut(p, at, at + 2);
    Parsed(Get16(b))
  }

  function Cut32(p: bytes, at: nat): Parsed<uint32> {
    var b :- Cut(p, at, at + 4);
    Parsed(Get32(b))
  }

  function Cut64(p: bytes, at: nat): Parsed<uint64> {
    var b :- Cut(p, at, at + 8);
    Parsed(Get64(b))
  }

  /** if len(payload) < n { return } */
  function AtLeast(p: bytes, n: nat): Parsed<()> {
    if |p| < n then Refused else Parsed(())
  }

  /** The name every request starts with; the length check of least bytes is a uint16 sum. */
  function DecodeName(p: bytes, least: uint16): Parsed<bytes> {
    var _ :- AtLeast(p, 2);
    var nameLen: int :- Cut16(p, 0);
    var _ :- AtLeast(p, (least + nameLen) % B16);
    Cut(p, 2, (2 + nameLen) % B16)
  }

  function DecodeProduceRequest(p: bytes): Parsed<Request> {
    var topic :- DecodeName(p, 2 + 4 + 2);
    var curr := 2 + |topic|;
    var partition :- Cut32(p, curr);
    var keyLen :- Cut16(p, curr + 4);
    var curr := curr + 6;
    var _ :- AtLeast(p, curr + keyLen + 4);
    var key :- Cut(p, curr, curr + keyLen);
    var valLen :- Cut32(p, curr + keyLen);
    var curr := curr + keyLen + 4;
    var _ :- AtLeast(p, curr + valLen);
    var value :- Cut(p, curr, curr + valLen);
    Parsed(Produce(topic, Signed32(partition), key, value))
  }

  function DecodeFetchRequest(p: bytes): Parsed<Request> {
    var topic :- DecodeName(p, 2 + 4 + 8 + 4);
    var curr := 2 + |topic|;
    var partition :- Cut32(p, curr);
    var offset :- Cut64(p, curr + 4);
    var maxCount :- Cut32(p, curr + 12);
    Parsed(Fetch(topic, Signed32(partition), offset, maxCount))
  }

  function DecodeCreateTopicRequest(p: bytes): Parsed<Request> {
    var name :- DecodeName(p, 2 + 4);
    var numPartitions :- Cut32(p, 2 + |name|);
    Parsed(CreateTopic(name, Signed32(numPartitions)))
  }

  function DecodeCommitOffsetRequest(p: bytes): Parsed<Request> {
    var group :- DecodeName(p, 2 + 2);
    var curr := 2 + |group|;
    var topicLen :- Cut16(p, curr);
    var curr := curr + 2;
    var _ :- AtLeast(p, curr + topicLen + 4 + 8);
    var topic :- Cut(p, curr, curr + topicLen);
    var curr := curr + topicLen;
    var partition :- Cut32(p, curr);
    var offset :- Cut64(p, curr + 4);
    Parsed(CommitOffset(group, topic, Signed32(partition), offset))
  }

  function DecodeFetchOffsetRequest(p: bytes): Parsed<Request> {
    var group :- DecodeName(p, 2 + 2);
    var curr := 2 + |group|;
    var topicLen :- Cut16(p, curr);
    var curr := curr + 2;
    var _ :- AtLeast(p, curr + topicLen + 4);
    var topic :- Cut(p, curr, curr + topicLen);
    var partition :- Cut32(p, curr + topicLen);
    Parsed(FetchOffset(group, topic, Signed32(partition)))
  }

  /** Each decoder yields its own kind of request. */
  lemma DecodedKinds(p: bytes)
    ensures DecodeProduceRequest(p).Parsed? ==> DecodeProduceRequest(p).value.Produce?
    ensures DecodeFetchRequest(p).Parsed? ==> DecodeFetchRequest(p).value.Fetch?
    ensures DecodeCreateTopicRequest(p).Parsed? ==> DecodeCreateTopicRequest(p).value.CreateTopic?
    ensures DecodeCommitOffsetRequest(p).Parsed? ==> DecodeCommitOffsetRequest(p).value.CommitOffset?
    ensures DecodeFetchOffsetRequest(p).Parsed? ==> DecodeFetchOffsetRequest(p).value.FetchOffset?
  {
    hide DecodeName, Cut, Cut16, Cut32, Cut64, AtLeast;
  }

  /** A key is shorter than its length field can count. */
  lemma ShortKey(p: bytes)
    ensures var d := DecodeProduceRequest(p);
            d.Parsed? && d.value.Produce? ==> |d.value.key| < B16
  {
    hide Get16, Get32, DecodeName;
  }

  // ---------- the request layouts ----------

  /** Requests whose strings fit their length fields. */
  predicate Encodable(r: Request) {
    && |r.topic| < B16
    && (r.Produce? ==> |r.key| < B16 && |r.value| < B32)
    && (r.CommitOffset? || r.FetchOffset? ==> |r.group| < B16)
  }

  function Int32(v: int32): (b: bytes)
    ensures |b| == 4
  {
    Put32(Unsigned32(v))
  }

  /** The payload schema of each request, as the protocol's registry lays it out. */
  function Encode(r: Request): bytes
    requires Encodable(r)
  {
    match r
    case Produce(topic, partition, key, value) =>
      Put16(|topic|) + (topic + (Int32(partition) + (Put16(|key|) + (key + (Put32(|value|) + value)))))
    case Fetch(topic, partition, offset, maxCount) =>
      Put16(|topic|) + (topic + (Int32(partition) + (Put64(offset) + Put32(maxCount))))
    case CreateTopic(topic, n) =>
      Put16(|topic|) + (topic + Int32(n))
    case CommitOffset(group, topic, partition, offset) =>
      Put16(|group|) + (group + (Put16(|topic|) + (topic + (Int32(partition) + Put64(offset)))))
    case FetchOffset(group, topic, partition) =>
      Put16(|group|) + (group + (Put16(|topic|) + (topic + Int32(partition))))
  }

  // ---------- bytes at a position ----------

  predicate At(p: bytes, pos: nat, b: bytes) {
    pos + |b| <= |p| && p[pos..pos + |b|] == b
  }

  lemma AtConcat(p: bytes, pos: nat, a: bytes, b: bytes)
    ensures At(p, pos, a + b) <==> At(p, pos, a) && At(p, pos + |a|, b)
  {
    if pos + |a| + |b| <= |p| {
      var whole := p[pos..pos + |a + b|];
      assert whole == p[pos..pos + |a|] + p[pos + |a|..pos + |a| + |b|];
      assert whole == a + b ==> whole[..|a|] == a && whole[|a|..] == b;
    }
  }

  lemma AtPrefix(p: bytes, b: bytes)
    ensures At(p, 0, b) <==> b <= p
  {
  }

  lemma Cut16At(p: bytes, at: nat, v: uint16)
    ensures Cut16(p, at) == Parsed(v) <==> At(p, at, Put16(v))
    ensures Cut16(p, at) == if at + 2 <= |p| then Parsed(Get16(p[at..at + 2])) else Crash
  {
    if at + 2 <= |p| {
      GetPut16(v);
      PutGet16(p[at..at + 2]);
    }
  }

  lemma Cut32At(p: bytes, at: nat, v: uint32)
    ensures Cut32(p, at) == Parsed(v) <==> At(p, at, Put32(v))
    ensures Cut32(p, at) == if at + 4 <= |p| then Parsed(Get32(p[at..at + 4])) else Crash
  {
    hide Get32, Put32;
    if at + 4 <= |p| {
      GetPut32(v);
      PutGet32(p[at..at + 4]);
    }
  }

  lemma Cut64At(p: bytes, at: nat, v: uint64)
    ensures Cut64(p, at) == Parsed(v) <==> At(p, at, Put64(v))
    ensures Cut64(p, at) == if at + 8 <= |p| then Parsed(Get64(p[at..at + 8])) else Crash
  {
    hide Get64, Put64;
    if at + 8 <= |p| {
      GetPut64(v);
      PutGet64(p[at..at + 8]);
    }
  }

  lemma Signs(u: uint32, v: int32)
    ensures Signed32(u) == v <==> u == Unsigned32(v)
  {
  }

  // ---------- the name in front ----------

  /**
    The payloads on which a decoder indexes out of range: the name's length makes the uint16
    sum wrap, the wrapped check passes, and the name or the fixed fields behind it are cut.
   */
  predicate Crashes(p: bytes, least: uint16) {
    |p| >= 2
    && var nameLen: int := Get16(p[0..2]);
       nameLen + least >= B16 && |p| >= nameLen + least - B16
       && (nameLen >= 65534 || |p| < nameLen + least)
  }

  /** Away from those payloads the name is read exactly when all its fixed fields are there. */
  lemma NameAt(p: bytes, least: uint16, name: bytes)
    requires !Crashes(p, least) && 2 <= least < 100
    ensures DecodeName(p, least) == Parsed(name)
       <==> |name| < B16 && At(p, 0, Put16(|name|)) && At(p, 2, name) && |p| >= |name| + least
    ensures DecodeName(p, least) != Crash
  {
    hide Get16, Put16;
    if |p| >= 2 {
      Cut16At(p, 0, Get16(p[0..2]));
      if |name| < B16 {
        Cut16At(p, 0, |name|);
      }
    }
  }

  // ---------- decoders against layouts ----------

  lemma Layout2(p: bytes, a: bytes, b: bytes)
    ensures a + b <= p <==> At(p, 0, a) && At(p, |a|, b)
  {
    AtPrefix(p, a + b);
    AtConcat(p, 0, a, b);
  }

  lemma ProduceLayout(p: bytes, r: Request)
    requires r.Produce? && Encodable(r)
    ensures var k := 8 + |r.topic|;
            Encode(r) <= p
            <==> && At(p, 0, Put16(|r.topic|)) && At(p, 2, r.topic)
                 && At(p, 2 + |r.topic|, Int32(r.partition)) && At(p, k - 2, Put16(|r.key|))
                 && At(p, k, r.key) && At(p, k + |r.key|, Put32(|r.value|))
                 && At(p, k + |r.key| + 4, r.value)
  {
    hide Put16, Put32, Int32, At;
    var k := 8 + |r.topic|;
    var d := Put32(|r.value|) + r.value;
    var c := Put16(|r.key|) + (r.key + d);
    var b := Int32(r.partition) + c;
    Layout2(p, Put16(|r.topic|), r.topic + b);
    AtConcat(p, 2, r.topic, b);
    AtConcat(p, 2 + |r.topic|, Int32(r.partition), c);
    AtConcat(p, k - 2, Put16(|r.key|), r.key + d);
    AtConcat(p, k, r.key, d);
    AtConcat(p, k + |r.key|, Put32(|r.value|), r.value);
  }

  /**
    The produce decoder accepts exactly the payloads that begin with a well-formed request,
    and returns that request.
   */
  lemma ProduceDecodes(p: bytes, r: Request)
    requires !Crashes(p, 8) && r.Produce?
    ensures DecodeProduceRequest(p) == Parsed(r) <==> Encodable(r) && Encode(r) <= p
  {
    hide Get16, Get32, Put16, Put32, Crashes, Cut16, Cut32, DecodeName, Encode, Signed32, Unsigned32;
    NameAt(p, 8, r.topic);
    var curr := 2 + |r.topic|;
    Cut32At(p, curr, Unsigned32(r.partition));
    if DecodeName(p, 8) == Parsed(r.topic) {
      Signs(Get32(p[curr..curr + 4]), r.partition);
      if |r.key| < B16 {
        Cut16At(p, curr + 4, |r.key|);
      }
      if |r.value| < B32 {
        Cut32At(p, curr + 6 + |r.key|, |r.value|);
      }
    }
    if Encodable(r) {
      ProduceLayout(p, r);
    }
  }

  lemma FetchLayout(p: bytes, r: Request)
    requires r.Fetch? && Encodable(r)
    ensures var k := 2 + |r.topic|;
            Encode(r) <= p
            <==> && At(p, 0, Put16(|r.topic|)) && At(p, 2, r.topic) && At(p, k, Int32(r.partition))
                 && At(p, k + 4, Put64(r.offset)) && At(p, k + 12, Put32(r.maxCount))
  {
    hide Put16, Put32, Put64, Int32, At;
    var k := 2 + |r.topic|;
    var c := Put64(r.offset) + Put32(r.maxCount);
    Layout2(p, Put16(|r.topic|), r.topic + (Int32(r.partition) + c));
    AtConcat(p, 2, r.topic, Int32(r.partition) + c);
    AtConcat(p, k, Int32(r.partition), c);
    AtConcat(p, k + 4, Put64(r.offset), Put32(r.maxCount));
  }

  lemma FetchDecodes(p: bytes, r: Request)
    requires !Crashes(p, 18) && r.Fetch?
    ensures DecodeFetchRequest(p) == Parsed(r) <==> Encodable(r) && Encode(r) <= p
  {
    hide Get16, Get32, Get64, Put16, Put32, Put64, Crashes, Cut32, Cut64, DecodeName, Encode,
         Signed32, Unsigned32;
    NameAt(p, 18, r.topic);
    var k := 2 + |r.topic|;
    Cut32At(p, k, Unsigned32(r.partition));
    Cut64At(p, k + 4, r.offset);
    Cut32At(p, k + 12, r.maxCount);
    if DecodeName(p, 18) == Parsed(r.topic) {
      Signs(Get32(p[k..k + 4]), r.partition);
    }
    if Encodable(r) {
      FetchLayout(p, r);
    }
  }

  lemma CreateTopicDecodes(p: bytes, r: Request)
    requires !Crashes(p, 6) && r.CreateTopic?
    ensures DecodeCreateTopicRequest(p) == Parsed(r) <==> Encodable(r) && Encode(r) <= p
  {
    hide Get16, Get32, Put16, Put32, Crashes, Cut32, DecodeName, Signed32, Unsigned32;
    NameAt(p, 6, r.topic);
    var k := 2 + |r.topic|;
    Cut32At(p, k, Unsigned32(r.numPartitions));
    if DecodeName(p, 6) == Parsed(r.topic) {
      Signs(Get32(p[k..k + 4]), r.numPartitions);
    }
    if Encodable(r) {
      Layout2(p, Put16(|r.topic|), r.topic + Int32(r.numPartitions));
      AtConcat(p, 2, r.topic, Int32(r.numPartitions));
    }
  }

  lemma CommitOffsetLayout(p: bytes, r: Request)
    requires r.CommitOffset? && Encodable(r)
    ensures var k := 4 + |r.group|;
            Encode(r) <= p
            <==> && At(p, 0, Put16(|r.group|)) && At(p, 2, r.group)
                 && At(p, 2 + |r.group|, Put16(|r.topic|)) && At(p, k, r.topic)
                 && At(p, k + |r.topic|, Int32(r.partition))
                 && At(p, k + |r.topic| + 4, Put64(r.offset))
  {
    hide Put16, Put32, Put64, Int32, At;
    var k := 4 + |r.group|;
    var d := Int32(r.partition) + Put64(r.offset);
    var c := Put16(|r.topic|) + (r.topic + d);
    Layout2(p, Put16(|r.group|), r.group + c);
    AtConcat(p, 2, r.group, c);
    AtConcat(p, 2 + |r.group|, Put16(|r.topic|), r.topic + d);
    AtConcat(p, k, r.topic, d);
    AtConcat(p, k + |r.topic|, Int32(r.partition), Put64(r.offset));
  }

  lemma CommitOffsetDecodes(p: bytes, r: Request)
    requires !Crashes(p, 4) && r.CommitOffset?
    ensures DecodeCommitOffsetRequest(p) == Parsed(r) <==> Encodable(r) && Encode(r) <= p
  {
    hide Get16, Get32, Get64, Put16, Put32, Put64, Crashes, Cut16, Cut32, Cut64, DecodeName, Encode,
         Signed32, Unsigned32;
    NameAt(p, 4, r.group);
    if |r.topic| < B16 {
      Cut16At(p, 2 + |r.group|, |r.topic|);
    }
    var k := 4 + |r.group| + |r.topic|;
    Cut32At(p, k, Unsigned32(r.partition));
    Cut64At(p, k + 4, r.offset);
    if k + 4 <= |p| {
      Signs(Get32(p[k..k + 4]), r.partition);
    }
    if Encodable(r) {
      CommitOffsetLayout(p, r);
    }
  }

  lemma FetchOffsetLayout(p: bytes, r: Request)
    requires r.FetchOffset? && Encodable(r)
    ensures var k := 4 + |r.group|;
            Encode(r) <= p
            <==> && At(p, 0, Put16(|r.group|)) && At(p, 2, r.group)
                 && At(p, 2 + |r.group|, Put16(|r.topic|)) && At(p, k, r.topic)
                 && At(p, k + |r.topic|, Int32(r.partition))
  {
    hide Put16, Put32, Int32, At;
    var k := 4 + |r.group|;
    var c := Put16(|r.topic|) + (r.topic + Int32(r.partition));
    Layout2(p, Put16(|r.group|), r.group + c);
    AtConcat(p, 2, r.group, c);
    AtConcat(p, 2 + |r.group|, Put16(|r.topic|), r.topic + Int32(r.partition));
    AtConcat(p, k, r.topic, Int32(r.partition));
  }

  lemma FetchOffsetDecodes(p: bytes, r: Request)
    requires !Crashes(p, 4) && r.FetchOffset?
    ensures DecodeFetchOffsetRequest(p) == Parsed(r) <==> Encodable(r) && Encode(r) <= p
  {
    hide Get16, Get32, Put16, Put32, Crashes, Cut16, Cut32, DecodeName, Encode, Signed32, Unsigned32;
    NameAt(p, 4, r.group);
    if |r.topic| < B16 {
      Cut16At(p, 2 + |r.group|, |r.topic|);
    }
    var k := 4 + |r.group| + |r.topic|;
    Cut32At(p, k, Unsigned32(r.partition));
    if k + 4 <= |p| {
      Signs(Get32(p[k..k + 4]), r.partition);
    }
    if Encodable(r) {
      FetchOffsetLayout(p, r);
    }
  }

  // ---------- when a decoder panics ----------

  /** A name that passes the wrapped check is cut, or the field behind it is. */
  lemma NameCrash(p: bytes, least: uint16)
    requires 2 <= least < 100 && Crashes(p, least)
    ensures DecodeName(p, least) == Crash
         || (DecodeName(p, least).Parsed? && |p| < |DecodeName(p, least).value| + least)
  {
    hide Get16, Put16;
    Cut16At(p, 0, Get16(p[0..2]));
  }

  /** Outside of the crashing payloads the fields behind the name are all there. */
  lemma NameSafe(p: bytes, least: uint16)
    requires 2 <= least < 100 && !Crashes(p, least)
    ensures DecodeName(p, least) != Crash
    ensures DecodeName(p, least).Parsed? ==> |p| >= |DecodeName(p, least).value| + least
  {
    hide Get16, Put16, Crashes, DecodeName;
    var name := DecodeName(p, least);
    NameAt(p, least, if name.Parsed? then name.value else []);
  }

  /** Each decoder indexes outside its payload exactly on the payloads that Crashes names. */
  lemma ProduceCrashes(p: bytes)
    ensures DecodeProduceRequest(p) == Crash <==> Crashes(p, 8)
  {
    hide Get16, Get32, Crashes, DecodeName;
    if Crashes(p, 8) { NameCrash(p, 8); } else { NameSafe(p, 8); }
  }

  lemma FetchCrashes(p: bytes)
    ensures DecodeFetchRequest(p) == Crash <==> Crashes(p, 18)
  {
    hide Get32, Get64, Crashes, DecodeName;
    if Crashes(p, 18) { NameCrash(p, 18); } else { NameSafe(p, 18); }
  }

  lemma CreateTopicCrashes(p: bytes)
    ensures DecodeCreateTopicRequest(p) == Crash <==> Crashes(p, 6)
  {
    hide Get32, Crashes, DecodeName;
    if Crashes(p, 6) { NameCrash(p, 6); } else { NameSafe(p, 6); }
  }

  lemma CommitOffsetCrashes(p: bytes)
    ensures DecodeCommitOffsetRequest(p) == Crash <==> Crashes(p, 4)
  {
    hide Get16, Get32, Get64, Crashes, DecodeName;
    if Crashes(p, 4) { NameCrash(p, 4); } else { NameSafe(p, 4); }
  }

  lemma FetchOffsetCrashes(p: bytes)
    ensures DecodeFetchOffsetRequest(p) == Crash <==> Crashes(p, 4)
  {
    hide Get16, Get32, Crashes, DecodeName;
    if Crashes(p, 4) { NameCrash(p, 4); } else { NameSafe(p, 4); }
  }

  // ---------- round trips ----------

  /** The name a request starts with. */
  function Front(r: Request): bytes {
    if r.CommitOffset? || r.FetchOffset? then r.group else r.topic
  }

  /** The bytes its decoder asks for besides the name. */
  function Least(r: Request): uint16 {
    match r
    case Produce(_, _, _, _) => 8
    case Fetch(_, _, _, _) => 18
    case CreateTopic(_, _) => 6
    case CommitOffset(_, _, _, _) => 4
    case FetchOffset(_, _, _) => 4
  }

  /** The decoder for requests of the kind of r. */
  function DecodeAs(r: Request, p: bytes): Parsed<Request> {
    match r
    case Produce(_, _, _, _) => DecodeProduceRequest(p)
    case Fetch(_, _, _, _) => DecodeFetchRequest(p)
    case CreateTopic(_, _) => DecodeCreateTopicRequest(p)
    case CommitOffset(_, _, _, _) => DecodeCommitOffsetRequest(p)
    case FetchOffset(_, _, _) => DecodeFetchOffsetRequest(p)
  }

  lemma EncodedFront(r: Request)
    requires Encodable(r)
    ensures |Encode(r)| >= |Front(r)| + Least(r)
    ensures Encode(r)[0..2] == Put16(|Front(r)|) && Get16(Put16(|Front(r)|)) == |Front(r)|
    ensures r.Produce? ==> |Encode(r)| == 12 + |r.topic| + |r.key| + |r.value|
  {
    hide Put16, Get16, Put32, Put64, Unsigned32;
    GetPut16(|Front(r)|);
  }

  /**
    Decoding undoes encoding exactly for names of at most 65533 bytes; the two lengths above
    wrap the end of the name and the decoder panics.
   */
  lemma DecodesEncoded(r: Request)
    requires Encodable(r)
    ensures DecodeAs(r, Encode(r)) == if |Front(r)| <= 65533 then Parsed(r) else Crash
  {
    hide DecodeProduceRequest, DecodeFetchRequest, DecodeCreateTopicRequest, DecodeCommitOffsetRequest,
         DecodeFetchOffsetRequest, Encode, Encodable, Put16, Get16;
    var p := Encode(r);
    EncodedFront(r);
    assert Crashes(p, Least(r)) <==> |Front(r)| >= 65534;
    match r {
      case Produce(_, _, _, _) => ProduceCrashes(p); if |r.topic| <= 65533 { ProduceDecodes(p, r); }
      case Fetch(_, _, _, _) => FetchCrashes(p); if |r.topic| <= 65533 { FetchDecodes(p, r); }
      case CreateTopic(_, _) => CreateTopicCrashes(p); if |r.topic| <= 65533 { CreateTopicDecodes(p, r); }
      case CommitOffset(_, _, _, _) =>
        CommitOffsetCrashes(p);
        if |r.group| <= 65533 { CommitOffsetDecodes(p, r); }
      case FetchOffset(_, _, _) =>
        FetchOffsetCrashes(p);
        if |r.group| <= 65533 { FetchOffsetDecodes(p, r); }
    }
  }
}
