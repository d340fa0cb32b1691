/** Record shapes shared by the server and the client. */
module Types {

  datatype Option<+T> = None | Some(value: T)

  /** A JavaScript value that may be absent, tested for truthiness: an absent
      value and the empty string are both falsy. */
  predicate Truthy(s: Option<string>) {
    s.Some? && s.value != ""
  }

  /** A field of a JSON request body: left out (`undefined`), `null`, or
      given a value. */
  datatype Field<+T> = Absent | Null | Present(value: T)

  function Min(a: int, b: int): int {
    if a <= b then a else b
  }

  /** The options the client submits with a processing request. */
  datatype ProcessingOptions = ProcessingOptions(
    quality: string,
    brightness: int,
    contrast: int,
    sharpen: bool,
    frameRate: string,
    format: string)

  datatype MediaKind = Image | Video

  /** One line of the processing log; `options` is the request's options
      object as received, which the video path stores as it came, absent or null included. */
  datatype HistoryEntry = HistoryEntry(
    id: string,
    originalFile: string,
    processedFile: string,
    processedAt: string,
    options: Field<ProcessingOptions>,
    kind: MediaKind)

  /** What the upload endpoint returns for a stored file. */
  datatype FileInfo = FileInfo(
    id: string,
    filename: string,
    originalName: string,
    mimetype: string,
    size: nat,
    path: string,
    uploadedAt: string)

  /** Concatenation regrouped, for proofs that build a sequence step by step. */
  lemma AppendAssoc<T>(a: seq<T>, b: seq<T>, c: seq<T>)
    ensures a + b + c == a + (b + c)
  {
  }
}
