/** Failure-compatible result types and the ways reading an MP4 file can fail.
    Every Python exception that the reader can raise (assertion failures, struct
    errors, lookups in a missing key, indexing past a list) is one `Error` value. */
module Results {

  datatype Option<+T> = None | Some(value: T)

  datatype Error =
    | ShortHeader            // a box header read returned 1..7 bytes (struct.error)
    | NoBox                  // a box was required but the header read hit end of file
    | TypeMismatch           // the box at an offset is not of the expected type
    | UnknownBoxType         // no field-width table for this box type (KeyError)
    | EmptyPayload           // the fixed-layout payload read returned nothing
    | ShortPayload           // the fixed-layout payload read was partial (struct.error)
    | FieldCountMismatch     // decoded values and field names differ in number
    | MissingBox             // a box type or index is absent from a box index
    | Stalled                // a zero-length box inside the range: the scan never advances
    | NoChunkOffsets         // the chunk-offset table is empty (co64[0])
    | ScalarSizeTable        // the sample-size table is a single fixed size, not a list
    | DurationTableOverrun   // the time-to-sample run index ran past the table
    | ChunkRunOverrun        // the sample-to-chunk run index ran past the table
    | ChunkOffsetOverrun     // the chunk index ran past the chunk-offset table

  datatype Result<+T> = Ok(value: T) | Err(error: Error) {
    predicate IsFailure() {
      Err?
    }

    function PropagateFailure<U>(): Result<U>
      requires Err?
    {
      Err(error)
    }

    function Extract(): T
      requires Ok?
    {
      value
    }
  }
}
