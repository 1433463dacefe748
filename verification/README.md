# LogPulse: a verified model

A Dafny model of the LogPulse broker, from bytes to sessions. Every layer is proved to
implement a simpler one, and the laws a client relies on are proved about the simple form.

| layer | files | what it is proved to be |
|---|---|---|
| bytes | `Bytes`, `Utf8`, `Decimal`, `Sorting`, `Files`, `Outcome` | big-endian integers, text, decimal names, sorted listings, files with cursors |
| storage | `Record`, `Framing`, `Index`, `Segment`, `Chain`, `CommitLog` | a list of payloads (`CommitLogs.CommitLog.Log`) |
| the log | `LogSpec`, `LogRuns` | an append-only sequence of messages over every run with reopenings |
| topics | `TopicSpec`, `Topics`, `Reload`, `Places`, `Restart` | per-partition sequences and a round-robin counter, across restarts |
| groups | `Paths`, `GroupSpec`, `Groups` | the latest commit per key; on disk the last snapshot published to each file |
| protocol | `Protocol`, `Responses`, `Wire`, `Formats` | inverse encoders and decoders, streams of requests and answers |
| broker | `BrokerSpec`, `Answering`, `EndToEnd`, `Clients`, `Replies`, `Server` | one answer per request, from the state left by the requests before it, up to the first fatal one |
| the process | `BrokerRuns`, `RunLaws`, `CommitRuns`, `Broker` | every run of connections and restarts from empty directories |

Code that updates objects in place is modelled by classes (`File`, `Index`, `Segment`,
`CommitLog`, `Topic`, `Manager`, `GroupManager`, `Conn`, `Server`) with the source's fields,
loops and branches; the methods are proved against pure functions. Go's widths are written out:
`uint16` and `uint32` lengths, sums and slice bounds wrap where the source's do, and a slice
expression out of range is the outcome `Panic` (`Crash` for a decoder), never a precondition.

Laws about sessions and runs speak of API keys and error codes by the numbers on the wire, and `Formats`
spells every format out on an example, byte by byte.

What the environment decides is a parameter: the clock, the key hash, the order of map iteration,
where a group commit is interrupted, the path of the offsets directory (`BrokerSpec.Env`), and the JSON serialiser, which is assumed
lossless on snapshots whose names are text (`Groups.Lossless`).

## Where the code and its documentation differ

The model follows the code.

- The index has one entry per record (`broker/storage/segment.go:112`); `PROJECT_REPORT.md:141`
  describes a sparse one.
- A record holds no offset (`broker/storage/segment.go:96-104`); `PROJECT_REPORT.md:183-207` draws one.
- Recovery neither rebuilds the index nor truncates a torn record (`broker/storage/segment.go:61-86`);
  `PROJECT_REPORT.md:431-435` promises both. `Framing.RecoverPrefix` says what the scan returns for
  every cut: it fails with 1 to 3 bytes of a length prefix left over and counts a torn record whose
  prefix is complete as a whole one.
- The responses carry a partition, a found flag or nothing where `PROJECT_REPORT.md:242-247` lists
  other payloads. The request layouts there are the ones the decoders read, and `Protocol.Encode` is
  taken from them; the load generator of `benchmark.go:200-207` leaves out the partition.

## Properties that hold only under a condition

Each condition is exact: it is proved in both directions.

- A message survives the record codec if and only if its key has at most 65517 bytes and the whole
  record is below 2^32 bytes (`Record.CodecExact`). Longer keys up to 65535 bytes panic, because
  the slice bound `18+keyLen` is a `uint16` sum; a key of 65536 bytes or more is cut to its
  length modulo 65536, or panics if that is over 65517.
- A request decoder slices out of range on exactly the payloads of `Protocol.Crashes`: the name's
  length makes a `uint16` sum wrap and the payload is too short for the name or the fields behind it.
  On all other payloads a request is accepted if and only if its layout is a prefix of the payload.
  Decoding undoes encoding if and only if the request's first name has at most 65533 bytes
  (`Protocol.DecodesEncoded`).
- "One response per request" is false of the code: a panic ends the process. A request panics if and
  only if it is fatal (`Answering.RespondCrashes`). Below 2^63 on every round-robin counter, a session
  answers all requests if and only if none is deadly (`Answering.AllAnswered`): a deadly request has one
  of the payloads above, or produces a key over 65517 bytes to a topic with partitions. The 7-byte payload
  of `Answering.WrappedNameKills` and the key of `Answering.LongKeyKills` are such inputs.
- A client recovers the response stream if and only if every response is below 2^32 bytes
  (`Wire.AnswersExact`), because the length field of a longer one wraps. Only a fetch of a large page or a
  large topic list has such a response (`Clients.ReplyOversized`). A message that was acknowledged is
  received in the answer to a fetch of count 1 if and only if 32 bytes, its key and its value
  together are below 2^32 (`Clients.ClientFetchesItsMessage`); `Clients.LargeMessageLost` is a
  message that is stored and acknowledged and cannot be received.
- Without write errors a restart keeps the offsets of a group if and only if the last commit to its
  file was its own (`GroupSpec.RestartExact`). The file is told from the cleaned path (`Paths.FileOf`): ids
  without a separator have their own files (`GroupSpec.OnePartAlone`), while a commit of `x/../y` takes
  the offsets of `y` away (`GroupSpec.DetourTakesOver`).
- The recovery scan counts exactly the complete records if and only if the cut lies between records
  (`Framing.RecoveryExact`).
- After a restart, position i holds partition i for all i if and only if there are at most ten
  partitions (`Reload.ReloadOrder`), since `partition-10` sorts before `partition-2`.
  Otherwise `Places.NewPlace` says where each partition comes back, and a second restart moves
  nothing (`Places.RestartOnce`).
- Of topics with plain names (`Restart.PlainName`: not empty, neither `.` nor `..`, no separator, no NUL), a restart loads
  a topic if and only if its name does not start with a dot (`Restart.NewManager`). The protocol does
  not ask for a plain name (`BrokerRuns.NamelessTopic`).
- A keyless produce panics if and only if the counter, converted to a signed 64-bit integer, is negative
  and not on a multiple of the number of partitions (`TopicSpec.KeylessPanics`).
- An index entry keeps its two numbers if and only if both fit 32 bits (`OffsetIndex.EntryExact`),
  and in every reachable chain they do (`Chains.NoNarrowingLoss`).

## Assumptions

- The segment size limit lies between 1 and 2^32, and the next offset of a log stays below 2^64 - 1.
- A log record is below 2^32 bytes; for produce requests that arrive in a frame this is
  proved (`EndToEnd.FrameFits`), not assumed.
- Each log operation is atomic, and a log or index write either happens as a whole or is not reached.
- The mapping of an index file shows the file's current bytes.
- Names of topics are plain file names. Where that matters for what a restart finds, it is a condition
  (`Restart.AllPlain`, `BrokerRuns.NamesWell`), as is that group ids and topics in commits are UTF-8 text,
  which JSON keeps. Group ids may have separators; the path of the offsets directory is absolute, and
  whether a commit outside of it goes through is decided by the environment. A topic's directory
  lists nothing the broker did not create, except in `Reload.ReloadTopic`, which skips entries that are
  not partitions.

## Model

| member | source | states |
|---|---|---|
| Record.FillRecord | broker/storage/segment.go:98-104 | with the code's `uint16` bounds the buffer is filled exactly when the key has at most 65517 bytes and the buffer holds the 18 fixed bytes and the key; otherwise it panics; every byte is determined |
| Record.EncodeRecord | broker/storage/segment.go:94-104 | the encoder succeeds exactly on the encodable inputs and then yields the length-prefixed payload |
| Record.RoundTrip | broker/storage/segment.go:183-190 | a record that fits decodes to its timestamp, its whole value and the first len % 65536 bytes of its key |
| Record.CodecExact | broker/storage/segment.go:94-104 | writing and reading is the identity if and only if the key has at most 65517 bytes and the record is below 2^32 bytes |
| Framing.ScanFrames | broker/storage/segment.go:168-180 | concatenated records parse back uniquely to the payloads that were written |
| Framing.PosGap | broker/storage/segment.go:158-164 | records start at least 18 bytes apart, so position 0 can only be the first record's |
| Framing.RecoverPrefix | broker/storage/segment.go:61-82 | for every cut of a well-formed file: exact on a boundary, an error for 1 to 3 bytes of a prefix, one record too many for a torn record with a whole prefix |
| Framing.RecoveryExact | broker/storage/segment.go:61-82 | the scan counts the complete records if and only if the cut is on a record boundary |
| Framing.RecoverWhole | broker/storage/segment.go:61-82 | an undamaged file yields the number of its records |
| OffsetIndex.BinarySearch | broker/storage/index.go:81-97 | on strictly increasing entries the binary search stays in bounds, terminates and equals a linear search from the end |
| OffsetIndex.LastAtOrBelow | broker/storage/index.go:74-100 | the result is the position of the last entry at or below the target |
| OffsetIndex.NoneAtOrBelow | broker/storage/index.go:74-100 | the result is 0 when no entry is at or below the target |
| OffsetIndex.Index.Lookup | broker/storage/index.go:74-100 | the lookup over the mapped bytes, 0 below the base offset |
| OffsetIndex.Index.Write | broker/storage/index.go:47-72 | appends one 8-byte entry with both numbers cut to 32 bits, and remaps |
| OffsetIndex.Index.Open | broker/storage/index.go:16-45 | opens or creates the file and maps its bytes unchanged |
| OffsetIndex.EntryExact | broker/storage/index.go:50-53 | an entry reads back as the numbers written if and only if both fit 32 bits |
| OffsetIndex.EntryAt | broker/storage/index.go:47-72 | entry i of an index over any tail of the records holds the true relative offset and byte position |
| OffsetIndex.LookupEntry | broker/storage/segment.go:144-164 | looking up a stored record gives its position if it is indexed and 0 if it is not |
| Segments.Segment.Append | broker/storage/segment.go:90-120 | returns the old next offset and appends one payload to the segment, its bytes to the log file and its entry to the index; a panic changes nothing |
| Segments.Segment.ReadFrom | broker/storage/segment.go:136-203 | equals a full scan, whatever tail of the records the index covers |
| Segments.Segment.Read | broker/storage/segment.go:122-134 | the message at one offset, or not found outside the segment |
| Segments.ScanRecords | broker/storage/segment.go:158-202 | the scan from an earlier record skips to the target and returns the window under the right offset labels |
| Segments.CountRecords | broker/storage/segment.go:61-82 | the recovery loop terminates and counts the hops over length prefixes |
| Segments.NewSegment | broker/storage/segment.go:31-88 | opens or creates both files; if they hold a segment, its next offset, size, payloads and index coverage are recovered |
| Segments.PageConcat | broker/storage/log.go:123 | reading two adjacent stretches and joining the pages is reading both at once, panics included |
| Chains.BasesIncrease | broker/storage/log.go:65-76 | in every reachable chain base offsets strictly increase and segments do not overlap |
| Chains.BaseOffset | broker/storage/log.go:69-76 | each segment starts at the offset of the first message behind the segments before it |
| Chains.NonEmptyButLast | broker/storage/log.go:65-87 | only the last segment can be empty |
| Chains.SizeBound | broker/storage/log.go:65-87 | a segment file is smaller than the size limit plus its last record |
| Chains.NoNarrowingLoss | broker/storage/index.go:47-53 | in every reachable chain an indexed record starts below the size limit, its relative offset is at most a 18th of that, and its entry holds both numbers |
| Chains.Rolled | broker/storage/log.go:69-76 | rolling keeps the chain invariant, the log and the next offset |
| Chains.Appended | broker/storage/log.go:78-86 | appending below the size limit keeps the chain invariant and extends the log by one payload |
| Chains.SortedBases | broker/storage/log.go:25-38 | sorting the parsed names of a directory gives exactly the base offsets of its chain |
| CommitLogs.CommitLog.Append | broker/storage/log.go:65-87 | returns the old end of the log and appends one payload, across rolling; a panic leaves the log as it was |
| CommitLogs.CommitLog.ReadFrom | broker/storage/log.go:106-128 | the page of the whole log, whatever segments it lies in and also from below the oldest offset |
| CommitLogs.CommitLog.Read | broker/storage/log.go:89-104 | the message at an offset, or not found outside the log |
| CommitLogs.CommitLog.NewestOffset | broker/storage/log.go:130-137 | the last offset of the log, 0 when nothing was ever appended |
| CommitLogs.CommitLog.OldestOffset | broker/storage/log.go:139-143 | the base offset of the first segment |
| CommitLogs.CommitLog.MessageCount | broker/storage/log.go:145-149 | the next offset, which is the number of messages only for a log that starts at 0 |
| CommitLogs.NewCommitLog | broker/storage/log.go:20-63 | rebuilds exactly the segments stored in the directory, or one empty segment at offset 0 |
| Decimal.PaddedRoundTrip | broker/storage/segment.go:32-33 | a zero-padded 20-digit name parses back to its offset, for every 64-bit value |
| Decimal.ItoaRoundTrip | broker/consumer/group.go:62-70 | decimal text parses back to its integer, for every 64-bit value |
| Bytes.BigEndian8 | broker/storage/segment.go:100 | the eight-byte numbers of all files and messages are big-endian |
| LogSpec.ReadFetches | broker/storage/log.go:106-128 | reading payloads that stand for messages returns those messages, from the offset on and at most the count |
| LogSpec.ReadIsFetch | broker/storage/log.go:89-128 | from the oldest offset on, reading one offset and fetching one message from it agree, also where there is none |
| LogSpec.AppendRepresents | broker/storage/log.go:78-86 | appending a payload stands for appending the message, with the key as the code stores it |
| LogSpec.PagesJoin | broker/storage/log.go:106-128 | a page of a followed by the next page of b is the page of a + b |
| LogSpec.TailDelivers | broker/storage/log.go:106-128 | under any interleaving of appends and polls a tail consumer sees one gap-free stretch of the log, each message once and in order |
| LogSpec.PollProgress | broker/storage/log.go:106-128 | a poll delivers something exactly when something is left, and everything that is left if its count allows |
| LogRuns.AppendOnly | broker/storage/log.go:65-87 | no stored message ever changes or moves, over every run |
| LogRuns.IndexesLost | broker/storage/index.go:16-45 | a directory from which any index files are removed still holds the same log |
| LogRuns.CloseAndReopen | broker/storage/log.go:20-63 | closing, losing any index files and opening again is the identity on log, base offset and segment chain |
| LogRuns.Run | broker/storage/log.go:65-128 | every sequence of appends, reads and reopenings from an empty directory gives the replies of an append-only sequence |
| Protocol.ProduceDecodes | broker/network/protocol.go:65-84 | accepts a payload if and only if a well-formed produce request is a prefix of it, and returns that request |
| Protocol.FetchDecodes | broker/network/protocol.go:93-106 | the same for fetch |
| Protocol.CreateTopicDecodes | broker/network/protocol.go:135-144 | the same for topic creation |
| Protocol.CommitOffsetDecodes | broker/network/protocol.go:146-164 | the same for offset commits |
| Protocol.FetchOffsetDecodes | broker/network/protocol.go:166-182 | the same for offset fetches |
| Protocol.DecodesEncoded | broker/network/protocol.go:65-182 | every encoded request decodes to itself if its first name has at most 65533 bytes, and makes the decoder panic otherwise |
| Protocol.ProduceCrashes | broker/network/protocol.go:65-84 | the produce decoder slices out of range exactly on the payloads whose wrapped length check lies |
| Protocol.FetchCrashes | broker/network/protocol.go:93-106 | the same for fetch |
| Protocol.CreateTopicCrashes | broker/network/protocol.go:135-144 | the same for topic creation |
| Protocol.CommitOffsetCrashes | broker/network/protocol.go:146-164 | the same for offset commits |
| Protocol.FetchOffsetCrashes | broker/network/protocol.go:166-182 | the same for offset fetches |
| Responses.EncodeFetchResponse | broker/network/protocol.go:108-133 | the second pass ends exactly where the first pass's size says and writes the layout of the messages |
| Responses.FetchRoundTrip | broker/network/protocol.go:108-133 | a client decodes exactly the messages, for every list whose counts and lengths the fields can hold |
| Responses.EncodeTopicList | broker/network/server.go:145-174 | both passes agree and write the layout of the topic list |
| Responses.ListRoundTrip | broker/network/server.go:145-174 | a client decodes exactly the topic names, partition counts and message totals |
| Responses.ProduceResponseRoundTrip | broker/network/protocol.go:86-91 | a client decodes exactly the partition and the offset |
| Responses.OffsetRoundTrip | broker/network/server.go:202-210 | a client decodes the offset and whether there is one |
| Wire.Conn.ReadRequest | broker/network/protocol.go:26-42 | takes one frame off the stream, reports end of stream and broken frames, and panics on a length below 6 |
| Wire.Conn.WriteResponse | broker/network/protocol.go:44-63 | appends one framed response to the stream |
| Wire.CallsRoundTrip | broker/network/protocol.go:26-42 | every concatenation of well-formed frames is read as exactly that list of requests |
| Wire.CutFrame | broker/network/protocol.go:26-42 | a client that disconnects within a frame: exactly the frames in front of it are read, and reading ends with an error |
| Wire.ShortFrame | broker/network/protocol.go:26-42 | a frame with a length below six panics behind the frames in front of it |
| Wire.AnswersExact | broker/network/protocol.go:44-63 | a client recovers every correlation id, error code and payload from the response stream, in order, if and only if no response is so long that its length field wraps |
| Wire.FirstExact | broker/network/protocol.go:44-63 | the same for the first n responses of a stream |
| Formats.NumberBytes | broker/storage/segment.go:100 | a number, most significant byte first |
| Formats.RecordBytes | broker/storage/segment.go:94-104 | a record, byte by byte |
| Formats.EntryBytes | broker/storage/index.go:50-53 | an index entry, byte by byte |
| Formats.ProduceBytes | PROJECT_REPORT.md:242 | a produce request, byte by byte |
| Formats.FetchRequestBytes | PROJECT_REPORT.md:243 | a fetch request, byte by byte |
| Formats.CreateTopicBytes | PROJECT_REPORT.md:244 | a topic creation, byte by byte |
| Formats.CommitOffsetBytes | PROJECT_REPORT.md:246 | an offset commit, byte by byte |
| Formats.FetchOffsetBytes | PROJECT_REPORT.md:247 | an offset fetch, byte by byte |
| Formats.RequestBytes | broker/network/protocol.go:26-42 | a request frame, byte by byte |
| Formats.ResponseBytes | broker/network/protocol.go:44-63 | a response frame, byte by byte |
| Formats.ProduceAnswerBytes | broker/network/protocol.go:86-91 | a produce response, byte by byte |
| Formats.PageBytes | broker/network/protocol.go:108-133 | a fetch response, byte by byte |
| Formats.TopicListBytes | broker/network/server.go:145-174 | a topic list, byte by byte |
| Formats.OffsetAnswerBytes | broker/network/server.go:202-210 | an offset response, byte by byte |
| Formats.Names | broker/storage/segment.go:32-33 | the names of a log file, an index file and a partition directory |
| GroupSpec.TextKeysParse | broker/consumer/group.go:62-70 | whatever order the text keys are read in, parsing them gives the partition map back |
| Paths.OwnFile | broker/consumer/group.go:113 | a group id without a separator has the file of its own name in the offsets directory |
| Paths.SharedFile | broker/consumer/group.go:113 | the id x/../y has the file of y |
| GroupSpec.LookupsAfter | broker/consumer/group.go:79-134 | after every run of commits, faults and restarts, memory shows the visible offset and disk the durable one, both told from the events alone and from which groups share a file |
| GroupSpec.RestartExact | broker/consumer/group.go:28-134 | without faults a restart keeps a group's offsets if and only if the last commit to its file was its own; otherwise it has none |
| GroupSpec.OnePartAlone | broker/consumer/group.go:113 | among ids without a separator no two share a file |
| GroupSpec.DetourTakesOver | broker/consumer/group.go:79-134 | a commit of x/../y makes the next restart forget the offsets of y |
| GroupSpec.NoFaultsLatest | broker/consumer/group.go:79-134 | without faults every lookup of a group that shares its file with no other gives the latest commit for its key, across restarts |
| GroupSpec.NoRestartLatest | broker/consumer/group.go:79-134 | without a restart every lookup gives the latest commit, even one whose write failed |
| Groups.CommitPublishes | broker/consumer/group.go:108-119 | wherever a commit is interrupted, and whichever file its id leads to, the published files remain complete snapshots, one group each; the file changes only by the rename |
| Groups.GroupManager.CommitOffset | broker/consumer/group.go:79-120 | memory takes the commit first; the files of the directory change as far as the fault and the cleaned path of the id let them |
| Groups.GroupManager.GetOffset | broker/consumer/group.go:122-134 | the offset in memory for the key, if there is one |
| Groups.NewGroupManager | broker/consumer/group.go:28-77 | reloading gives exactly the published groups, skipping what does not parse, in any file order |
| Groups.Run | broker/consumer/group.go:28-134 | every run from an empty directory leaves the specified memory and published files |
| TopicSpec.RunDelivers | broker/topic/topic.go:123-145 | over every run each partition holds exactly the messages destined for it, in produce order |
| TopicSpec.KeyOrder | broker/topic/topic.go:134-137 | all messages with one non-empty key are in one partition, in produce order |
| TopicSpec.CountsSum | broker/topic/topic.go:123-145 | the partition counts sum to the number of produces |
| TopicSpec.RoundRobin | broker/topic/topic.go:138-141 | anywhere in a run, any n consecutive keyless produces store one message in each of the n partitions, whatever keyed traffic lies between them |
| TopicSpec.KeylessBalanced | broker/topic/topic.go:138-141 | over any stretch of a run the keyless messages stored in two partitions differ by at most one |
| TopicSpec.KeylessPanics | broker/topic/topic.go:138-141 | exactly when a keyless produce panics on a negative partition index |
| Topics.Topic.Produce | broker/topic/topic.go:129-145 | the routing code over real logs takes the topic to the specified state and returns its partition and offset |
| Topics.Manager.Produce | broker/topic/topic.go:123-145 | changes the one topic as specified and leaves every other one as it was |
| Topics.Manager.Consume | broker/topic/topic.go:147-156 | the page of the partition's messages, or an unknown topic or invalid partition, and no topic changes |
| Topics.Manager.CreateTopic | broker/topic/topic.go:77-104 | adds a topic with empty partitions under a new name and refuses an existing one |
| Topics.Topic.TotalMessages | broker/network/server.go:164-168 | the 64-bit sum of the partition counts |
| Topics.CreatePartitions | broker/topic/topic.go:90-99 | partition i is at position i, in its own directory, with an empty log of its own |
| Topics.NewPartition | broker/topic/partition.go:16-30 | makes the directory if it is missing and opens exactly the log stored there |
| Reload.ReloadTopic | broker/topic/topic.go:53-69 | opens every partition directory once, in name order, with the log stored there, and skips other entries |
| Reload.ReloadOrder | broker/topic/topic.go:54-70 | position i holds partition i for all i if and only if there are at most ten partitions |
| Reload.RoutingSurvives | broker/topic/topic.go:134-137 | with at most ten partitions every key goes to the same physical partition after a restart |
| Places.ReloadPermutes | broker/topic/topic.go:54-70 | the reloaded partitions are a permutation of the old ones: each comes back, with its messages and its id, at the one position of its name among the sorted names |
| Places.OrderedStay | broker/topic/topic.go:54-70 | partitions whose names are in byte order stay where they are |
| Places.RestartOnce | broker/topic/topic.go:54-70 | a second restart moves nothing |
| Places.FewStay | broker/topic/topic.go:54-70 | with at most ten partitions every partition stays where it was |
| Restart.LiveIsStored | broker/topic/topic.go:28-75 | at every moment a live topic's directory holds closed logs for its messages |
| Restart.RestartTopic | broker/topic/topic.go:54-70 | reloading a live topic's directory serves the same messages, at the positions of the name order |
| Restart.LoadTopics | broker/topic/topic.go:46-72 | the outer loop loads exactly the entries whose first byte is not a dot, and loading one topic disturbs no other |
| Restart.PlainExact | broker/topic/topic.go:43-47 | the plain names are those without a NUL that a path takes as they are |
| Restart.NewManager | broker/topic/topic.go:28-75 | on the directory of a manager that stopped in any state with plain topic names, the new manager serves exactly the topics whose first byte is not a dot, each as reloaded |
| BrokerSpec.OneAnswerEach | broker/network/server.go:63-93 | the answers are to a first part of the requests, in request order and under the same correlation ids |
| Answering.RespondCrashes | broker/network/server.go:63-210 | a request panics if and only if its payload makes its decoder slice out of range, or it is a produce to a topic with partitions whose key is over 65517 bytes, or a keyless one whose counter gives a negative index |
| Answering.AnsweredUntilFatal | broker/network/server.go:63-93 | exactly the requests in front of the first fatal one are answered |
| Answering.AllAnswered | broker/network/server.go:63-93 | with counters below 2^63, exactly the requests in front of the first deadly one are answered, where deadly is told from the bytes of the requests and the topics at the start; all of them if and only if none is |
| Answering.WrappedNameKills | broker/network/protocol.go:65-84 | a 7-byte produce payload in a well-formed frame ends the process without an answer |
| Answering.LongKeyKills | broker/storage/segment.go:98-104 | a well-formed produce with a key of 65518 bytes to a topic with partitions ends the process without an answer |
| Replies.OtherKey | broker/network/server.go:89-91 | a request with an API key above 5 is answered with code 2 and changes nothing |
| Replies.RefusedReply | broker/network/server.go:95-210 | a payload that no well-formed request of its API key begins, and that does not panic, is answered with code 2 and changes nothing |
| Replies.UnroutedReply | broker/network/server.go:102-106 | a produce to a topic that is not there or has no partitions is answered with code 3 |
| Replies.UnknownReply | broker/network/server.go:119-123 | a fetch of a topic or partition that is not there is answered with code 1 |
| Replies.CreateReply | broker/topic/topic.go:77-104 | a creation of an absent topic is answered with code 0 and makes the number of empty partitions it says, counted from 0, and changes no other topic; for a present one it is answered with code 4 and changes nothing |
| Replies.SessionCreates | broker/network/server.go:129-143 | in a session, a creation is answered with code 0 exactly if the topic is neither there at the start nor created before, and fixes its number of partitions |
| Replies.ListReply | broker/network/server.go:145-174 | a list request is answered with code 0 and a list that a client reads as every topic exactly once, with its partitions and the sum of its log lengths modulo 2^64 |
| Replies.SessionTotal | broker/network/server.go:162-169 | over any session the message total of a topic grows by the number of its produces answered with code 0 |
| Replies.CommitReply | broker/network/server.go:176-190 | a commit is answered with code 0 if and only if its write met no fault and with code 3 otherwise, and memory has its offset either way |
| Replies.FetchOffsetReply | broker/network/server.go:192-210 | an offset fetch is answered with the offset in memory and 1, or with 0 and 0 |
| BrokerSpec.ServeGrows | broker/network/server.go:63-93 | no request of any kind loses or changes a stored message |
| Servers.Server.HandleProduce | broker/network/server.go:95-110 | writes exactly the specified response, or nothing on a panic, and takes the broker to the specified state |
| Servers.Server.HandleFetch | broker/network/server.go:112-127 | writes exactly the specified response and changes no message |
| Servers.Server.HandleCreateTopic | broker/network/server.go:129-143 | the same for topic creation |
| Servers.Server.HandleListTopics | broker/network/server.go:145-174 | the same for the topic list |
| Servers.Server.HandleCommitOffset | broker/network/server.go:176-190 | the same for offset commits, with an internal error when the write fails |
| Servers.Server.HandleFetchOffset | broker/network/server.go:192-210 | the same for offset fetches |
| Servers.Server.HandleConnection | broker/network/server.go:63-93 | for any input bytes, the requests in front of the first broken frame or panic are served in order and their answers are all that is written |
| Brokers.RestartBroker | broker/topic/topic.go:28-75 | a broker stopped in any state and started on its directories serves its visible topics as reloaded and the published offsets; if all topics are visible, it is again in a valid state |
| Brokers.StartBroker | broker/topic/topic.go:28-75 | a broker on empty directories has no topic and no offset |
| Brokers.Run | broker/network/server.go:63-93 | every run of connections and restarts from empty directories gives each client exactly the specified bytes |
| EndToEnd.AnswerOf | broker/network/server.go:63-93 | answer k is the reply to request k in the state behind the requests before it |
| EndToEnd.Acknowledged | broker/network/server.go:95-110 | a produce is answered without an error if and only if its topic has partitions, its key has at most 65517 bytes and the partition index is not negative; the answer then decodes to where the message is |
| EndToEnd.ProducedIsFetched | broker/network/server.go:95-127 | in any session, a fetch of the partition and offset a produce was answered with returns exactly its key and value |
| EndToEnd.ProducedSurvives | broker/network/server.go:95-127 | the same when the broker restarts between the two requests: the fetch is from the position at which the partition comes back, the old one with at most ten partitions |
| Clients.ReplyOversized | broker/network/server.go:112-174 | exactly which requests have a response whose length field wraps: a fetch of a page, or a topic list, of 2^32 - 10 bytes or more |
| Clients.StreamExact | broker/network/server.go:63-93 | a client reads the first n answers of a session as they were meant if and only if none of their requests is one of these |
| Clients.ClientFetchesItsMessage | broker/network/server.go:95-127 | on the bytes of the two streams: a client whose produce was acknowledged, with readable answers so far, receives the message in the answer to its fetch if and only if 32 bytes, key and value are together below 2^32 |
| Clients.LargeMessageLost | broker/network/protocol.go:44-63 | a message of 2^32 - 20 bytes that is framed, stored and acknowledged, and whose fetch is answered, but that the client cannot receive |
| Clients.FetchAnswers | broker/network/server.go:112-127 | every fetch is answered with exactly the messages from its offset on, at most as many as it asks for, and with an error if there is no such partition |
| EndToEnd.CommittedIsFetched | broker/network/server.go:176-210 | in any session, an offset fetch is answered with the latest commit for its key |
| EndToEnd.NoFaultsAgree | broker/consumer/group.go:79-120 | in a session whose own commits meet no write error and have ids without a separator, memory and disk agree on all offsets, so a restart loses no commit |
| EndToEnd.SessionKeyOrder | broker/topic/topic.go:123-145 | in a session without a deadly request each partition of a new topic ends with exactly the messages destined for it, those of one key in the order sent |
| EndToEnd.FrameFits | broker/network/protocol.go:65-84 | every produce request that fits a frame fits the record format |
| BrokerRuns.RunKeeps | broker/topic/topic.go:28-75 | no connection and no restart loses a message or moves it out of its partition; with at most ten partitions it keeps its position |
| BrokerRuns.AcknowledgedForever | broker/network/server.go:95-127 | in every run, what one client was acknowledged any later client fetches, across any number of connections, panics and restarts, from the position at which the partition then is; the acknowledged one with at most ten partitions |
| RunLaws.PlaceTold | broker/topic/topic.go:54-70 | where a partition is after any events is told from the number of partitions and whether the topic's first restart lies between: only that one moves it |
| RunLaws.RunLogIn | broker/topic/topic.go:28-156 | across connections, panics and restarts the log of a partition only grows at its end |
| RunLaws.ConnectionAnswered | broker/network/server.go:63-93 | in every run with fewer than 2^63 requests, a connection gets one response per request if and only if none of its requests is deadly, and it takes the broker down if and only if one is or its last frame has a length below six |
| RunLaws.RunKeyOrder | broker/topic/topic.go:123-145 | in every run, of a topic with at most ten partitions, all messages acknowledged for one key are in the partition its hash selects and in no other one, in the order sent, across connections, panics and restarts |
| RunLaws.ConsumerFindsStretch | broker/network/server.go:112-127 | a consumer that fetches a partition over any connections and restarts, each time from behind the last message it found, finds one gap-free stretch of its log, each message once and in order |
| BrokerRuns.OffsetsForever | broker/consumer/group.go:79-134 | in every run, an offset fetch is answered with the offset visible after the commits and restarts before it, as told by GroupSpec.Visible |
| CommitRuns.CommitSurvives | broker/consumer/group.go:79-134 | in every run, a commit answered with code 0, of a group whose id has no separator, is what later connections read, across any restarts, until the next commit for its key, if all groups that commit have such ids |
| CommitRuns.OutputOf | broker/network/server.go:63-93 | each client of a run gets exactly the answers of its own session, and nothing if the broker is down when it connects |
| BrokerRuns.NamelessTopic | broker/network/protocol.go:135-144 | a topic creation with an empty name is a well-formed request |

## Left out

- Overlapping reads in one segment share a file cursor (`broker/storage/segment.go:149`); every log operation is atomic here and nothing is claimed about parallel readers.
- Failed or partial writes inside `Segment.Append`; a log file cut at any byte is treated by the recovery lemmas alone.
- Servers.Server.HandleConnection: one connection is served at a time from a given broker state; requests of several connections are ordered by the broker's locks, and `BrokerSpec.Serve` applies to any such order, but the goroutines are not modelled. A restart happens between requests.
- Groups.NewGroupManager: JSON text is not modelled; the serialiser is assumed to be lossless on snapshots whose names are text.
- Topics.Manager.CreateTopic: a topic whose name is not plain is given a directory of its own; the cleaning of such a path is modelled for group ids only.
- Brokers.Run: topics are created under plain names that do not start with a dot; what is left on disk of a topic whose name does, and creating it again after a restart, is not modelled.
- TopicSpec.KeyOrder: the hash is an arbitrary deterministic function, not FNV-1a.
- The memory-mapping calls and the Windows fallback, which reads from the moving file cursor.
- Sockets, failing connection writes, the accept loop, shutdown and the zero-copy transfer functions.
- The HTTP interface, the dashboard and the load generator.
- `ListGroups`, `Close` and the directory errors of `os.MkdirAll` and `os.ReadDir`.
