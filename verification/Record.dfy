/**
  The record layout of a segment file (broker/storage/segment.go): a 4-byte length prefix,
  then a payload of timestamp, key length, key, value length and value. All lengths and
  slice bounds are computed in the widths the code uses, so they wrap where the code's do.
 */
module Record {
  import opened Bytes
  import opened Outcomes

  datatype Rec = Rec(timestamp: int64, key: bytes, value: bytes)

  type Payload = p: bytes | 14 <= |p| < B32 witness Zeros(14)

  /** A payload behind its length prefix. */
  function Frame(p: Payload): (r: bytes)
    ensures |r| == 4 + |p|
  {
    Put32(|p|) + p
  }

  // ---------- encoding ----------

  function KeyLen(key: bytes): uint16 { |key| % B16 }

  function TotalLen(key: bytes, value: bytes): uint32 { (14 + |key| + |value|) % B32 }

  /** The inputs for which the encoder's slice expressions all stay in range. */
  predicate Encodable(key: bytes, value: bytes) {
    KeyLen(key) <= 65517 && 14 + KeyLen(key) <= TotalLen(key, value) < B32 - 4
  }

  /** A payload of total bytes with these fields. */
  function Layout(total: uint32, timestamp: int64, key: bytes, valLen: uint32, value: bytes): (p: Payload)
    requires 14 + |key| <= total && |key| < B16
    ensures |p| == total
  {
    Put64(Unsigned64(timestamp)) + Put16(|key|) + key + Put32(valLen) + Fit(value, total - 14 - |key|)
  }

  /** The record payload the encoder lays out for an encodable message. */
  function PayloadOf(timestamp: int64, key: bytes, value: bytes): (p: Payload)
    requires Encodable(key, value)
    ensures |p| == TotalLen(key, value)
  {
    Layout(TotalLen(key, value), timestamp, key[..KeyLen(key)], |value| % B32, value)
  }

  /** The length prefix, timestamp and key length at the start of a buffer. */
  method FillHead(buf: array<byte>, total: bytes, timestamp: bytes, keyLen: bytes) returns (ok: bool)
    requires Filled(buf, []) && |total| == 4 && |timestamp| == 8 && |keyLen| == 2
    modifies buf
    ensures ok <==> buf.Length >= 14
    ensures ok ==> Filled(buf, total + timestamp + keyLen)
  {
    hide Filled;
    if !InRange(0, 4, buf.Length) { return false; }
    Emit(buf, 0, total, []);
    assert [] + total == total;
    if !InRange(4, 12, buf.Length) { return false; }
    Emit(buf, 4, timestamp, total);
    if !InRange(12, 14, buf.Length) { return false; }
    Emit(buf, 12, keyLen, total + timestamp);
    return true;
  }

  /** The key, value length and value behind that; the bounds are uint16 sums of the key length. */
  method FillBody(buf: array<byte>, key: bytes, valLen: bytes, value: bytes, ghost head: bytes)
    returns (ok: bool)
    requires Filled(buf, head) && |head| == 14 <= buf.Length && |valLen| == 4 && |key| < B16
    modifies buf
    ensures ok <==> |key| <= 65517 && 18 + |key| <= buf.Length
    ensures ok ==> Filled(buf, head + key + valLen + Fit(value, buf.Length - 18 - |key|))
  {
    hide Fit, Zeros, Filled;
    var n := buf.Length;
    if !InRange(14, (14 + |key|) % B16, n) { return false; }
    Emit(buf, 14, key, head);
    if !InRange((14 + |key|) % B16, (18 + |key|) % B16, n) { return false; }
    Emit(buf, 14 + |key|, valLen, head + key);
    if !InRange((18 + |key|) % B16, n, n) { return false; }
    var room := n - 18 - |key|;
    ghost var w := head + key + valLen;
    Emit(buf, 18 + |key|, if |value| <= room then value else value[..room], w);
    FilledRest(buf, w, value, room);
    return true;
  }

  /** What was not written behind the value is zero. */
  lemma FilledRest(buf: array<byte>, w: bytes, value: bytes, room: nat)
    requires Filled(buf, w + if |value| <= room then value else value[..room])
    requires |w| + room == buf.Length
    ensures Filled(buf, w + Fit(value, room))
  {
    FilledTail(w, value, room);
  }

  /**
    Fills a fresh n-byte buffer with the encoded fields, field after field, checking every
    slice bound.
   */
  method FillRecord(n: nat, total: bytes, timestamp: bytes, keyLen: bytes, key: bytes,
                    valLen: bytes, value: bytes)
    returns (r: Outcome<bytes>)
    requires |total| == 4 && |timestamp| == 8 && |keyLen| == 2 && |valLen| == 4
    requires |key| < B16
    ensures r.Ok? <==> |key| <= 65517 && 18 + |key| <= n
    ensures r.Ok? ==> r.value == total + (timestamp + keyLen + key + valLen
                                          + Fit(value, n - 18 - |key|))
    ensures !r.Ok? ==> r == Panic
  {
    hide Fit, Zeros, Filled;
    var buf := new byte[n](_ => 0);
    FilledStart(buf);
    var ok := FillHead(buf, total, timestamp, keyLen);
    if !ok {
      return Panic;
    }
    ok := FillBody(buf, key, valLen, value, total + timestamp + keyLen);
    if !ok {
      return Panic;
    }
    ghost var rest := Fit(value, n - 18 - |key|);
    FilledWhole(buf, total + timestamp + keyLen + key + valLen + rest);
    SixParts(total, timestamp, keyLen, key, valLen, rest);
    return Ok(buf[..]);
  }

  /** The encoder of Segment.Append. */
  method EncodeRecord(timestamp: int64, key: bytes, value: bytes) returns (r: Outcome<bytes>)
    ensures r.Ok? <==> Encodable(key, value)
    ensures r.Ok? ==> r.value == Frame(PayloadOf(timestamp, key, value))
    ensures !r.Ok? ==> r == Panic
  {
    hide Put64, Put32, Put16;
    var keyLen: int := |key| % B16;
    var valLen: int := |value| % B32;
    var totalLen: int := (8 + 2 + |key| + 4 + |value|) % B32;
    r := FillRecord((4 + totalLen) % B32, Put32(totalLen), Put64(Unsigned64(timestamp)),
                    Put16(keyLen), key[..keyLen], Put32(valLen), value);
  }

  // ---------- decoding ----------

  /** The payload-parsing part of Segment.ReadFrom, with uint16 and uint32 bounds. */
  function DecodePayload(p: bytes): Outcome<Rec> {
    if !InRange(0, 8, |p|) || !InRange(8, 10, |p|) then Panic else
    var timestamp := Signed64(Get64(p[0..8]));
    var keyLen: int := Get16(p[8..10]);
    var keyEnd := (10 + keyLen) % B16;
    if !InRange(10, keyEnd, |p|) then Panic else
    var key := Fit(p[10..keyEnd], keyLen);
    var valStart := (14 + keyLen) % B16;
    if !InRange(keyEnd, valStart, |p|) then Panic else
    if valStart - keyEnd < 4 then Panic else
    var valLen: int := Get32(p[keyEnd..keyEnd + 4]);
    var valEnd := (14 + keyLen + valLen) % B32;
    if !InRange(valStart, valEnd, |p|) then Panic else
    Ok(Rec(timestamp, key, Fit(p[valStart..valEnd], valLen)))
  }

  predicate Decodable(p: bytes) { DecodePayload(p).Ok? }

  /** Decoding a payload laid out in five parts; what follows the value is ignored. */
  lemma DecodeShape(ts: bytes, kl: bytes, key: bytes, vl: bytes, value: bytes, pad: bytes)
    requires |ts| == 8 && |kl| == 2 && |vl| == 4
    requires Get16(kl) == |key| <= 65517
    requires Get32(vl) == |value| && 14 + |key| + |value| < B32
    ensures DecodePayload(ts + kl + key + vl + (value + pad))
         == Ok(Rec(Signed64(Get64(ts)), key, value))
  {
    hide Get64, Get32, Get16;
    FiveParts(ts, kl, key, vl, value + pad);
    var p := ts + kl + key + vl + (value + pad);
    assert p[14 + |key|..14 + |key| + |value|] == value;
  }

  lemma DecodeLayout(timestamp: int64, key: bytes, value: bytes, pad: bytes)
    requires |key| <= 65517 && 14 + |key| + |value| < B32
    ensures DecodePayload(Put64(Unsigned64(timestamp)) + Put16(|key|) + key + Put32(|value|)
                          + (value + pad))
         == Ok(Rec(timestamp, key, value))
  {
    GetPut64(Unsigned64(timestamp));
    GetPut16(|key|);
    GetPut32(|value|);
    DecodeShape(Put64(Unsigned64(timestamp)), Put16(|key|), key, Put32(|value|), value, pad);
  }

  /** The records whose size the 4-byte length fields can hold. */
  predicate Fits(key: bytes, value: bytes) { 18 + |key| + |value| < B32 }

  lemma FittingLengths(key: bytes, value: bytes)
    requires Fits(key, value)
    ensures TotalLen(key, value) == 14 + |key| + |value| && |value| % B32 == |value|
    ensures Encodable(key, value) <==> KeyLen(key) <= 65517
  {
  }

  /** The layout of a record that fits: no length field wraps, and the key's lost bytes pad it. */
  lemma PayloadLayout(timestamp: int64, key: bytes, value: bytes)
    requires Encodable(key, value)
    requires TotalLen(key, value) == 14 + |key| + |value| && |value| % B32 == |value|
    ensures PayloadOf(timestamp, key, value)
         == Put64(Unsigned64(timestamp)) + Put16(KeyLen(key)) + key[..KeyLen(key)] + Put32(|value|)
            + (value + Zeros(|key| - KeyLen(key)))
  {
    FitPads(value, |key| - KeyLen(key));
  }

  /** A record that fits reads back with its whole value and the key's first len % 65536 bytes. */
  lemma RoundTrip(timestamp: int64, key: bytes, value: bytes)
    requires Fits(key, value)
    ensures Encodable(key, value) <==> KeyLen(key) <= 65517
    ensures Encodable(key, value)
        ==> DecodePayload(PayloadOf(timestamp, key, value))
            == Ok(Rec(timestamp, key[..KeyLen(key)], value))
  {
    FittingLengths(key, value);
    if KeyLen(key) <= 65517 {
      PayloadLayout(timestamp, key, value);
      DecodeLayout(timestamp, key[..KeyLen(key)], value, Zeros(|key| - KeyLen(key)));
    }
  }

  /** What comes back has the lengths the two length fields can hold. */
  lemma DecodedLengths(timestamp: int64, key: bytes, value: bytes)
    requires Encodable(key, value)
    ensures var r := DecodePayload(PayloadOf(timestamp, key, value));
            r.Ok? ==> |r.value.key| == |key| % B16 && |r.value.value| == |value| % B32
  {
    var keyLen := KeyLen(key);
    GetPut16(keyLen);
    GetPut32(|value| % B32);
    FiveParts(Put64(Unsigned64(timestamp)), Put16(keyLen), key[..keyLen], Put32(|value| % B32),
              Fit(value, TotalLen(key, value) - 14 - keyLen));
    LengthsAt(PayloadOf(timestamp, key, value), keyLen, |value| % B32);
  }

  lemma LengthsAt(p: bytes, keyLen: uint16, valLen: uint32)
    requires keyLen <= 65517 && 14 + keyLen <= |p|
    requires Get16(p[8..10]) == keyLen
    requires Get32(p[10 + keyLen..14 + keyLen]) == valLen
    ensures DecodePayload(p).Ok?
        ==> |DecodePayload(p).value.key| == keyLen && |DecodePayload(p).value.value| == valLen
  {
  }

  /** With a short key, an encodable record that does not fit has more than 2^32 - 1 value bytes. */
  lemma Wrapped(k: nat, v: nat)
    requires k <= 65517 && 18 + k + v >= B32
    requires 14 + k <= (14 + k + v) % B32 < B32 - 4
    ensures v >= B32
  {
  }

  /** Exactly which messages survive writing and reading: no bound is assumed. */
  lemma CodecExact(timestamp: int64, key: bytes, value: bytes)
    ensures (Encodable(key, value)
             && DecodePayload(PayloadOf(timestamp, key, value)) == Ok(Rec(timestamp, key, value)))
       <==> |key| <= 65517 && Fits(key, value)
  {
    hide DecodePayload, PayloadOf;
    if Fits(key, value) {
      RoundTrip(timestamp, key, value);
      assert key[..|key|] == key;
      assert |key| > 65517 && Encodable(key, value) ==> |key[..KeyLen(key)]| != |key|;
    } else if Encodable(key, value) {
      NotFaithful(timestamp, key, value);
    }
  }

  lemma NotFaithful(timestamp: int64, key: bytes, value: bytes)
    requires Encodable(key, value) && !Fits(key, value)
    ensures DecodePayload(PayloadOf(timestamp, key, value)) != Ok(Rec(timestamp, key, value))
  {
    hide DecodePayload, PayloadOf;
    DecodedLengths(timestamp, key, value);
    if |key| <= 65517 {
      Wrapped(|key|, |value|);
    }
    // Otherwise the key comes back shorter, or it has wrapped and was not encodable at all.
  }
}
