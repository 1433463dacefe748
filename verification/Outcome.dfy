/** How a Go operation can end: with a value, with an error value, or by a run-time panic. */
module Outcomes {
  datatype Error =
    | EOF              // io.EOF
    | UnexpectedEOF    // io.ErrUnexpectedEOF
    | NotFound         // storage.ErrNotFound
    | UnknownTopic
    | NoPartitions
    | InvalidPartition
    | TopicExists
    | WriteFailed

  datatype Outcome<+T> = Ok(value: T) | Err(error: Error) | Panic
}
