/** The storage package's value types.  Times are integers on one clock; JSON documents are
    represented by the value they encode. */
module Types {

  newtype byte = b: int | 0 <= b < 256

  type Bytes = seq<byte>

  datatype Option<+T> = None | Some(value: T)

  datatype Result<+T> = Ok(value: T) | Err(error: Error)

  datatype Error =
    | BucketNotFound
    | BucketExists
    | BucketNotEmpty
    | ObjectNotFound
    | InvalidBucketName
    | UploadNotFound
    | InvalidPart
    | BodyReadFailed
    | InvalidRequest
    | Undecodable
    | NotADirectory

  datatype ObjectMeta = ObjectMeta(
    key: string,
    contentType: string,
    contentLength: int,
    etag: string,
    lastModified: int,
    userMetadata: map<string, string>)

  datatype ObjectInfo = ObjectInfo(key: string, size: int, lastModified: int, etag: string)

  datatype ListOptions = ListOptions(prefix: string, delimiter: string, marker: string, maxKeys: int)

  datatype ListResult = ListResult(
    objects: seq<ObjectInfo>,
    commonPrefixes: seq<string>,
    isTruncated: bool,
    nextMarker: string)

  datatype MultipartPart = MultipartPart(partNumber: int, etag: string, size: int, lastModified: int)

  datatype CompletedPart = CompletedPart(partNumber: int, etag: string)

  datatype UploadState = UploadState(uploadId: string, key: string, initiated: int, meta: ObjectMeta)

  /** A request body as `io.Copy` meets it: the chunks its reads deliver, and whether the read after them fails. */
  datatype Body = Body(chunks: seq<Bytes>, fails: bool)

  function Concat(chunks: seq<Bytes>): Bytes
  {
    if chunks == [] then [] else Concat(chunks[..|chunks| - 1]) + chunks[|chunks| - 1]
  }
}
