/** Option and the outcome of an operation that may abort the process. */
module Wrappers {

  datatype Option<+T> = None | Some(value: T)

  /** The reasons for which the modelled code panics (a fatal, unrecoverable error). */
  datatype Panic =
    | OutOfBounds          // a world coordinate outside the world's bound
    | MissingChunk         // `unwrap` of a chunk lookup that found nothing
    | OutsideChunk         // a local coordinate >= CHUNK_WIDTH
    | IndexOutOfRange      // slice indexing past the end
    | Unimplemented        // `unimplemented!` in the scene-graph traversal
    | Underflow            // u64 subtraction below zero
    | EmptyRange           // `rand::random_range` over an empty range
    | WriteOutOfRange      // a host write past the end of a buffer

  /** Either the value an operation returned, or the panic that aborted it. */
  datatype Fallible<+T> = Done(value: T) | Panicked(reason: Panic)
}
