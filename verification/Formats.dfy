/**
  The formats of the broker's files and messages, spelled out on small examples byte by byte:
  segment.go, index.go, protocol.go and the names that log.go and topic.go look for.
 */
module Formats {
  import opened Bytes
  import opened Record
  import opened OffsetIndex
  import opened Decimal
  import opened Segments
  import opened Topics
  import opened Protocol
  import opened Responses
  import opened Wire
  import opened BrokerSpec

  lemma Small32(v: uint32)
    requires v < 0x100
    ensures Put32(v) == [0, 0, 0, v as byte]
  {
  }

  lemma Small64(v: uint64)
    requires v < 0x100
    ensures Put64(v) == [0, 0, 0, 0, 0, 0, 0, v as byte]
  {
    Small32(v);
    Small32(0);
  }

  /** The number 0x0102030405060708, most significant byte first. */
  lemma NumberBytes()
    ensures Put64(0x102030405060708) == [1, 2, 3, 4, 5, 6, 7, 8]
  {
    assert Put32(0x1020304) == [1, 2, 3, 4];
    assert Put32(0x5060708) == [5, 6, 7, 8];
  }

  /** The record of key k and value v at time 1. */
  lemma RecordBytes()
    ensures Record.Encodable([0x6B], [0x76])
    ensures Frame(PayloadOf(1, [0x6B], [0x76]))
         == [0, 0, 0, 16] + [0, 0, 0, 0, 0, 0, 0, 1] + [0, 1] + [0x6B] + [0, 0, 0, 1] + [0x76]
  {
    Small32(16);
    Small32(1);
    Small64(1);
    assert Fit([0x76], 1) == [0x76];
  }

  /** The index entry of the second record, at byte 20. */
  lemma EntryBytes()
    ensures Entry(1, 20) == [0, 0, 0, 1, 0, 0, 0, 20]
  {
    Small32(1);
    Small32(20);
  }

  lemma ProduceBytes()
    ensures Encode(Produce([0x74], 2, [0x6B], [0x76]))
         == [0, 1] + [0x74] + [0, 0, 0, 2] + [0, 1] + [0x6B] + [0, 0, 0, 1] + [0x76]
  {
    Small32(2);
    Small32(1);
  }

  lemma FetchRequestBytes()
    ensures Encode(Fetch([0x74], 2, 5, 9))
         == [0, 1] + [0x74] + [0, 0, 0, 2] + [0, 0, 0, 0, 0, 0, 0, 5] + [0, 0, 0, 9]
  {
    Small32(2);
    Small32(9);
    Small64(5);
  }

  lemma CreateTopicBytes()
    ensures Encode(CreateTopic([0x74], 3)) == [0, 1] + [0x74] + [0, 0, 0, 3]
  {
    Small32(3);
  }

  lemma CommitOffsetBytes()
    ensures Encode(CommitOffset([0x67], [0x74], 2, 7))
         == [0, 1] + [0x67] + [0, 1] + [0x74] + [0, 0, 0, 2] + [0, 0, 0, 0, 0, 0, 0, 7]
  {
    Small32(2);
    Small64(7);
  }

  lemma FetchOffsetBytes()
    ensures Encode(FetchOffset([0x67], [0x74], 2)) == [0, 1] + [0x67] + [0, 1] + [0x74] + [0, 0, 0, 2]
  {
    Small32(2);
  }

  /** A frame: its length, the API key, the correlation id and the payload. */
  lemma RequestBytes()
    ensures CallBytes(Call(3, 9, [1, 2])) == [0, 0, 0, 8] + [0, 3] + [0, 0, 0, 9] + [1, 2]
  {
    Small32(8);
    Small32(9);
  }

  /** A response: its length, the correlation id, the error code and the payload. */
  lemma ResponseBytes()
    ensures AnswerBytes(Answer(9, 4, [1, 2])) == [0, 0, 0, 8] + [0, 0, 0, 9] + [0, 4] + [1, 2]
  {
    Small32(8);
    Small32(9);
  }

  /** The answer to a produce: the partition and the offset. */
  lemma ProduceAnswerBytes()
    ensures ProducePayload(2, 5) == [0, 0, 0, 2] + [0, 0, 0, 0, 0, 0, 0, 5]
  {
    Small32(2);
    Small64(5);
  }

  /** A page of one message: the count, the offset, the time, the key and the value. */
  lemma PageBytes()
    ensures FetchBytes([Message(5, 1, [0x6B], [0x76])])
         == [0, 0, 0, 1] + [0, 0, 0, 0, 0, 0, 0, 5] + [0, 0, 0, 0, 0, 0, 0, 1] + [0, 1] + [0x6B]
            + [0, 0, 0, 1] + [0x76]
  {
    Small32(1);
    Small64(5);
    Small64(1);
    var m := Message(5, 1, [0x6B], [0x76]);
    assert [m][..0] == [] && ListBytes([m], MessageBytes) == [] + MessageBytes(m);
  }

  /** A list of one topic: the count, the name, the partitions and the messages. */
  lemma TopicListBytes()
    ensures Counted([TopicInfo([0x74], 3, 5)], TopicBytes)
         == [0, 0, 0, 1] + [0, 1] + [0x74] + [0, 0, 0, 3] + [0, 0, 0, 0, 0, 0, 0, 5]
  {
    Small32(1);
    Small32(3);
    Small64(5);
    var t := TopicInfo([0x74], 3, 5);
    assert [t][..0] == [] && ListBytes([t], TopicBytes) == [] + TopicBytes(t);
  }

  /** The answer to an offset fetch: the offset and whether there is one. */
  lemma OffsetAnswerBytes()
    ensures OffsetBytes(7, true) == [0, 0, 0, 0, 0, 0, 0, 7] + [1]
    ensures OffsetBytes(0, false) == [0, 0, 0, 0, 0, 0, 0, 0] + [0]
  {
    Small64(7);
    Small64(0);
  }

  lemma Tens()
    ensures Padded(10, 2) == "10" && Itoa(10) == "10"
  {
    assert Padded(1, 1) == Padded(0, 0) + [DigitChar(1)];
    assert Padded(10, 2) == Padded(1, 1) + [DigitChar(0)];
    assert ItoaNat(1) == [DigitChar(1)] && ItoaNat(10) == ItoaNat(1) + [DigitChar(0)];
  }

  /** The names of files and directories. */
  lemma Names()
    ensures LogName(0) == "00000000000000000000.log"
    ensures IndexName(0) == "00000000000000000000.index"
    ensures PartitionName(10) == "partition-10"
  {
    Tens();
    ZeroDigits();
  }

  lemma ZeroDigits()
    ensures Padded(0, 20) == "00000000000000000000"
  {
    assert Padded(0, 5) == "00000";
    assert Padded(0, 10) == "0000000000";
    assert Padded(0, 15) == "000000000000000";
  }
}
