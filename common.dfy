/** Shared vocabulary of the taxi data retrieval model: optional values, the
    error outcomes of the download and load routines, and byte strings. */
module Common {

  type Path = string
  type Url = string
  type Bytes = seq<bv8>

  datatype Option<T> = None | Some(value: T)

  /** The exceptions that escape the download and load routines.
      InvalidDataType and InvalidMonth are the two ValueErrors raised by
      validation, NoDataLoaded the ValueError raised when no table could be
      loaded, and OSError a filesystem error (mkdir over an existing file,
      opening a directory for writing) that aborts the whole batch. */
  datatype Error = InvalidDataType | InvalidMonth | NoDataLoaded | OSError

  datatype Result<T> = Ok(value: T) | Err(error: Error)

  /** Concatenation of a sequence of chunks, in order. */
  function Flatten(chunks: seq<Bytes>): (bytes: Bytes)
    decreases |chunks|
  {
    if chunks == [] then [] else Flatten(chunks[..|chunks| - 1]) + chunks[|chunks| - 1]
  }

  lemma FlattenSnoc(chunks: seq<Bytes>, c: Bytes)
    ensures Flatten(chunks + [c]) == Flatten(chunks) + c
  {
    assert (chunks + [c])[..|chunks|] == chunks;
  }

  /** The chunks that are not empty, in order. */
  function NonEmpty(chunks: seq<Bytes>): (r: seq<Bytes>)
    ensures |r| <= |chunks|
    ensures forall i :: 0 <= i < |r| ==> r[i] != []
    decreases |chunks|
  {
    if chunks == [] then []
    else NonEmpty(chunks[..|chunks| - 1]) + (if chunks[|chunks| - 1] == [] then [] else [chunks[|chunks| - 1]])
  }

  /** Dropping empty chunks does not change what is written. */
  lemma {:induction false} FlattenNonEmpty(chunks: seq<Bytes>)
    ensures Flatten(NonEmpty(chunks)) == Flatten(chunks)
    decreases |chunks|
  {
    if chunks != [] {
      var init, last := chunks[..|chunks| - 1], chunks[|chunks| - 1];
      FlattenNonEmpty(init);
      if last != [] {
        FlattenSnoc(NonEmpty(init), last);
      } else {
        assert NonEmpty(chunks) == NonEmpty(init);
      }
    }
  }
}
