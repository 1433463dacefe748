/**
  The simple thing a commit log implements: an append-only sequence of messages, of which a
  read returns one window. No file, index or chain of segments occurs in it.
 */
module LogSpec {
  import opened Bytes
  import opened Outcomes
  import opened Record
  import opened Segments

  type Messages = seq<Rec>

  function Tagged(offset: nat, r: Rec): Message {
    Message(offset, r.timestamp, r.key, r.value)
  }

  /** The messages from log[from] to log[to - 1] under their offsets. */
  function Slice(log: Messages, base: nat, from: nat, to: nat): (ms: seq<Message>)
    requires from <= to <= |log|
    ensures |ms| == to - from
  {
    seq(to - from, i requires 0 <= i < to - from => Tagged(base + from + i, log[from + i]))
  }

  lemma SliceAt(log: Messages, base: nat, from: nat, to: nat, i: nat)
    requires from <= to <= |log| && i < to - from
    ensures Slice(log, base, from, to)[i] == Tagged(base + from + i, log[from + i])
  {
  }

  /** The messages from an offset on, at most maxCount of them. */
  function Fetch(log: Messages, base: nat, offset: nat, maxCount: int): seq<Message> {
    var w := Window(|log|, base, offset, maxCount);
    Slice(log, base, w.0, w.1)
  }

  /** The payloads that decode to these messages. */
  ghost predicate Represents(ps: seq<Payload>, log: Messages) {
    |ps| == |log| && forall i :: 0 <= i < |ps| ==> DecodePayload(ps[i]) == Ok(log[i])
  }

  /** Reading payloads that represent messages returns those messages. */
  lemma ReadFetches(ps: seq<Payload>, log: Messages, base: nat, offset: nat, maxCount: int)
    requires Represents(ps, log)
    ensures ReadResult(ps, base, offset, maxCount) == Ok(Fetch(log, base, offset, maxCount))
  {
    hide DecodePayload;
    var w := Window(|ps|, base, offset, maxCount);
    var page := ps[w.0..w.1];
    assert AllDecodable(page);
    forall i | 0 <= i < |page|
      ensures Labels(page, base + w.0)[i] == Fetch(log, base, offset, maxCount)[i]
    {
      SliceAt(log, base, w.0, w.1, i);
    }
    assert Labels(page, base + w.0) == Fetch(log, base, offset, maxCount);
  }

  lemma ReadOneFetches(ps: seq<Payload>, log: Messages, base: nat, offset: nat)
    requires Represents(ps, log)
    ensures ReadOne(ps, base, offset)
         == if base <= offset < base + |log| then Ok(Tagged(offset, log[offset - base]))
            else Err(NotFound)
  {
    hide DecodePayload;
  }

  /** Reading one offset is fetching one message from it, inside the log. */
  lemma ReadIsFetch(ps: seq<Payload>, log: Messages, base: nat, offset: nat)
    requires Represents(ps, log) && offset >= base
    ensures match ReadOne(ps, base, offset)
            case Ok(m) => Fetch(log, base, offset, 1) == [m]
            case Err(e) => e == NotFound && Fetch(log, base, offset, 1) == []
            case Panic => false
  {
    hide DecodePayload, ReadOne, Fetch, Represents;
    ReadOneFetches(ps, log, base, offset);
    FetchOne(log, base, offset);
  }

  lemma FetchOne(log: Messages, base: nat, offset: nat)
    requires offset >= base
    ensures Fetch(log, base, offset, 1)
         == if offset < base + |log| then [Tagged(offset, log[offset - base])] else []
  {
  }

  /** The message that is stored: a key keeps its first len % 65536 bytes. */
  function AsStored(timestamp: int64, key: bytes, value: bytes): Rec {
    Rec(timestamp, key[..KeyLen(key)], value)
  }

  lemma AppendRepresents(ps: seq<Payload>, log: Messages, timestamp: int64, key: bytes, value: bytes)
    requires Represents(ps, log) && Fits(key, value)
    ensures Encodable(key, value) <==> KeyLen(key) <= 65517
    ensures Encodable(key, value)
        ==> Represents(ps + [PayloadOf(timestamp, key, value)], log + [AsStored(timestamp, key, value)])
  {
    hide DecodePayload, PayloadOf;
    RoundTrip(timestamp, key, value);
  }

  // ---------- pages ----------

  /** When a page is empty, and where it ends. */
  lemma PageEnds(log: Messages, base: nat, offset: nat, maxCount: int)
    ensures var page, w := Fetch(log, base, offset, maxCount), Window(|log|, base, offset, maxCount);
            && (page != [] <==> maxCount >= 1 && log != [] && offset < base + |log|)
            && (page != [] ==> page[|page| - 1].offset + 1 == base + w.1)
  {
    var w := Window(|log|, base, offset, maxCount);
    if w.0 < w.1 {
      SliceAt(log, base, w.0, w.1, w.1 - w.0 - 1);
    }
  }

  /** A page of a followed by the page of b behind it is the page of a + b. */
  lemma PagesJoin(log: Messages, base: nat, offset: nat, a: nat, b: nat)
    ensures var first := Fetch(log, base, offset, a);
            var next := if first == [] then offset else first[|first| - 1].offset + 1;
            first + Fetch(log, base, next, b) == Fetch(log, base, offset, a + b)
  {
    PageEnds(log, base, offset, a);
    var first := Fetch(log, base, offset, a);
    assert first + Fetch(log, base, if first == [] then offset else first[|first| - 1].offset + 1, b)
        == Fetch(log, base, offset, a + b);
  }

  // ---------- a consumer that follows the tail ----------

  datatype TailEvent = Added(message: Rec) | Poll(maxCount: int)

  datatype TailState = TailState(log: Messages, next: nat, seen: seq<Message>)

  /** A poll asks from next on; what it gets moves next behind the last offset it has seen. */
  function TailStep(s: TailState, base: nat, e: TailEvent): TailState {
    match e
    case Added(r) => s.(log := s.log + [r])
    case Poll(n) =>
      var page := Fetch(s.log, base, s.next, n);
      if page == [] then s
      else s.(next := page[|page| - 1].offset + 1, seen := s.seen + page)
  }

  function TailRun(s: TailState, base: nat, events: seq<TailEvent>): TailState {
    if events == [] then s
    else TailStep(TailRun(s, base, events[..|events| - 1]), base, events[|events| - 1])
  }

  /** Everything seen so far is one gap-free stretch of the log, starting where polling began. */
  ghost predicate TailOk(s: TailState, base: nat, start: nat) {
    var from := if start < base then 0 else start - base;
    if s.seen == [] then s.next == start
    else
      && from + |s.seen| <= |s.log|
      && s.seen == Slice(s.log, base, from, from + |s.seen|)
      && s.next == base + from + |s.seen|
  }

  lemma SliceJoin(log: Messages, base: nat, a: nat, b: nat, c: nat)
    requires a <= b <= c <= |log|
    ensures Slice(log, base, a, b) + Slice(log, base, b, c) == Slice(log, base, a, c)
  {
  }

  lemma SliceGrows(log: Messages, base: nat, a: nat, b: nat, r: Rec)
    requires a <= b <= |log|
    ensures Slice(log + [r], base, a, b) == Slice(log, base, a, b)
  {
  }

  lemma TailStepOk(s: TailState, base: nat, start: nat, e: TailEvent)
    requires TailOk(s, base, start)
    ensures TailOk(TailStep(s, base, e), base, start)
  {
    hide Slice;
    var from := if start < base then 0 else start - base;
    match e {
      case Added(r) =>
        if s.seen != [] {
          SliceGrows(s.log, base, from, from + |s.seen|, r);
        }
      case Poll(n) =>
        PageEnds(s.log, base, s.next, n);
        var w := Window(|s.log|, base, s.next, n);
        if s.seen == [] {
          assert s.seen + Fetch(s.log, base, s.next, n) == Fetch(s.log, base, s.next, n);
        } else if Fetch(s.log, base, s.next, n) != [] {
          SliceJoin(s.log, base, from, w.0, w.1);
        }
    }
  }

  /**
    Any interleaving of appends and polls delivers each message once, in order and without
    gaps, from the first existing offset at or above the starting one.
   */
  lemma {:induction false} TailDelivers(log: Messages, base: nat, start: nat, events: seq<TailEvent>)
    ensures TailOk(TailRun(TailState(log, start, []), base, events), base, start)
  {
    if events != [] {
      var before := TailRun(TailState(log, start, []), base, events[..|events| - 1]);
      TailDelivers(log, base, start, events[..|events| - 1]);
      TailStepOk(before, base, start, events[|events| - 1]);
    }
  }

  /** A poll for at least one message delivers something whenever something is left. */
  lemma PollProgress(s: TailState, base: nat, n: int)
    requires n >= 1
    ensures var t := TailStep(s, base, Poll(n));
            && (s.log != [] && s.next < base + |s.log| <==> |t.seen| > |s.seen|)
            && (n >= |s.log| && s.log != [] && s.next < base + |s.log| ==> t.next == base + |s.log|)
  {
    PageEnds(s.log, base, s.next, n);
  }

  // ---------- polls of a growing log ----------

  /** Where a consumer asks next: behind the last message it has seen. */
  function AskFrom(start: nat, seen: seq<Message>): nat {
    if seen == [] then start else seen[|seen| - 1].offset + 1
  }

  /** What a consumer sees that polls a log at these moments of its growth. */
  function Polled(logs: seq<Messages>, counts: seq<int>, start: nat): seq<Message>
    requires |logs| == |counts|
  {
    if logs == [] then []
    else
      var last := |logs| - 1;
      var before := Polled(logs[..last], counts[..last], start);
      before + Fetch(logs[last], 0, AskFrom(start, before), counts[last])
  }

  /** One poll more. */
  lemma PolledMore(logs: seq<Messages>, counts: seq<int>, start: nat, log: Messages, count: int)
    requires |logs| == |counts|
    ensures var before := Polled(logs, counts, start);
            Polled(logs + [log], counts + [count], start)
            == before + Fetch(log, 0, AskFrom(start, before), count)
  {
    hide Fetch;
    assert (logs + [log])[..|logs|] == logs && (counts + [count])[..|counts|] == counts;
  }

  lemma SliceExtends(log: Messages, grown: Messages, base: nat, a: nat, b: nat)
    requires log <= grown && a <= b <= |log|
    ensures Slice(grown, base, a, b) == Slice(log, base, a, b)
  {
  }

  lemma PolledLast(logs: seq<Messages>, counts: seq<int>, start: nat)
    requires |logs| == |counts| > 0
    ensures var last := |logs| - 1;
            var before := Polled(logs[..last], counts[..last], start);
            Polled(logs, counts, start)
            == before + Fetch(logs[last], 0, AskFrom(start, before), counts[last])
    ensures |logs| == 1 ==> Polled(logs[..0], counts[..0], start) == []
  {
    hide Fetch;
  }

  /** The consumer sees one gap-free stretch of the log, from where it started. */
  lemma {:induction false} PolledStretch(logs: seq<Messages>, counts: seq<int>, start: nat)
    requires |logs| == |counts| > 0
    requires forall a, b :: 0 <= a <= b < |logs| ==> logs[a] <= logs[b]
    ensures var seen, log := Polled(logs, counts, start), logs[|logs| - 1];
            TailOk(TailState(log, AskFrom(start, seen), seen), 0, start)
    decreases |logs|
  {
    hide Slice, Fetch, TailStep, Polled;
    var last := |logs| - 1;
    PolledLast(logs, counts, start);
    var before := Polled(logs[..last], counts[..last], start);
    var s := TailState(logs[last], AskFrom(start, before), before);
    if last > 0 {
      PolledStretch(logs[..last], counts[..last], start);
      if before != [] {
        SliceExtends(logs[last - 1], logs[last], 0, start, start + |before|);
      }
    }
    TailStepOk(s, 0, start, Poll(counts[last]));
    PollStep(s, start, counts[last]);
  }

  /** A poll of a consumer that asks from behind what it has seen. */
  lemma PollStep(s: TailState, start: nat, n: int)
    requires s.next == AskFrom(start, s.seen)
    ensures var seen := s.seen + Fetch(s.log, 0, s.next, n);
            TailStep(s, 0, Poll(n)) == TailState(s.log, AskFrom(start, seen), seen)
  {
    hide Fetch;
    assert s.seen + [] == s.seen;
  }
}
