/** The store as its clients think of it: buckets of objects and unfinished uploads, and what each request does. */
module ObjectStore {
  import opened Types
  import ByteStrings
  import opened Encoding
  import opened BucketNames
  import opened Layout
  import FileSystem
  import opened Listing

  const REGION := "us-east-1"
  const DEFAULT_CONTENT_TYPE := "application/octet-stream"
  const MAX_PART_NUMBER := 10000
  const MAX_DELETE_OBJECTS := 1000

  datatype Object = Object(data: Bytes, meta: ObjectMeta)

  datatype Part = Part(data: Bytes, info: MultipartPart)

  /** Strays are temporary files that requests cut short by a crash have left: they are no part of what clients see, but
      keep a bucket from being deleted. */
  datatype Upload = Upload(state: UploadState, parts: map<nat, Part>, strays: map<string, FileSystem.Content>)

  datatype Bucket = Bucket(
    createdAt: int,
    objects: map<string, Object>,
    uploads: map<string, Upload>,
    strays: map<string, FileSystem.Content>)

  type Store = map<string, Bucket>

  // ----- entity tags and metadata -----

  function Quoted(text: string): string
  {
    "\"" + text + "\""
  }

  /** The tag of a plain object or part: its quoted hexadecimal MD5. */
  function PlainETag(h: Hashes, data: Bytes): string
  {
    Quoted(Hex(h.md5(data)))
  }

  /** What `PutObject` records about a body. */
  function StoredMeta(h: Hashes, key: string, data: Bytes, meta: ObjectMeta, now: int): ObjectMeta
  {
    var contentType := if meta.contentType == "" then DEFAULT_CONTENT_TYPE else meta.contentType;
    ObjectMeta(key, contentType, |data|, PlainETag(h, data), now, meta.userMetadata)
  }

  /** The object a body becomes. */
  function ObjectFrom(h: Hashes, key: string, body: Body, meta: ObjectMeta, now: int): Object
  {
    Object(Concat(body.chunks), StoredMeta(h, key, Concat(body.chunks), meta, now))
  }

  /** What a copy takes over from its source; the rest is computed anew. */
  function CopiedMeta(source: ObjectMeta): ObjectMeta
  {
    ObjectMeta("", source.contentType, 0, "", 0, source.userMetadata)
  }

  function CopyOf(h: Hashes, source: Object, key: string, now: int): Object
  {
    Object(source.data, StoredMeta(h, key, source.data, CopiedMeta(source.meta), now))
  }

  // ----- what tags and metadata say -----

  /** The tag is the digest in lower-case hexadecimal digits, between double quotes. */
  predicate QuotesHex(etag: string, digest: Bytes)
  {
    && |etag| == 2 * |digest| + 2 && etag[0] == '"' && etag[|etag| - 1] == '"'
    && SpellsHex(etag[1..|etag| - 1], digest)
  }

  /** The same with a hyphen and a decimal count after the digits. */
  predicate QuotesComposite(etag: string, digest: Bytes, count: nat)
  {
    var n := 2 * |digest|;
    && |etag| == n + 3 + |Itoa(count)| && etag[0] == '"' && etag[|etag| - 1] == '"'
    && SpellsHex(etag[1..n + 1], digest) && etag[n + 1] == '-' && etag[n + 2..|etag| - 1] == Itoa(count)
  }

  /** The metadata is that of the data under the key, with what the request gave and the time it was made. */
  predicate Records(m: ObjectMeta, key: string, data: Bytes, contentType: string, userMetadata: map<string, string>,
                    now: int)
  {
    && m.key == key && m.contentLength == |data| && m.lastModified == now && m.userMetadata == userMetadata
    && m.contentType == if contentType == "" then "application/octet-stream" else contentType
  }

  lemma QuotedIsTag(etag: string, digest: Bytes)
    ensures QuotesHex(etag, digest) <==> etag == Quoted(Hex(digest))
  {
    var quoted := Quoted(Hex(digest));
    HexSpells(digest, Hex(digest));
    Unquoted(Hex(digest));
    if QuotesHex(etag, digest) {
      var inside := etag[1..|etag| - 1];
      HexSpells(digest, inside);
      assert etag == [etag[0]] + inside + [etag[|etag| - 1]];
      assert quoted == ['"'] + inside + ['"'];
    }
  }

  lemma Unquoted(text: string)
    ensures var quoted := Quoted(text);
            |quoted| == |text| + 2 && quoted[0] == '"' && quoted[|quoted| - 1] == '"' && quoted[1..|quoted| - 1] == text
  {
  }

  lemma PlainTagQuotes(h: Hashes, data: Bytes)
    ensures QuotesHex(PlainETag(h, data), h.md5(data))
  {
    QuotedIsTag(PlainETag(h, data), h.md5(data));
  }

  lemma CompositeQuotes(digest: Bytes, count: nat)
    ensures QuotesComposite(Quoted(Hex(digest) + "-" + Itoa(count)), digest, count)
  {
    var hex, text := Hex(digest), Hex(digest) + "-" + Itoa(count);
    HexSpells(digest, hex);
    Unquoted(text);
    var etag, n := Quoted(text), |hex|;
    assert etag[1..n + 1] == etag[1..|etag| - 1][..n] == hex;
    assert etag[n + 1] == text[n] == '-';
    assert etag[n + 2..|etag| - 1] == text[n + 1..] == Itoa(count);
  }

  lemma StoredRecords(h: Hashes, key: string, data: Bytes, meta: ObjectMeta, now: int)
    ensures Records(StoredMeta(h, key, data, meta, now), key, data, meta.contentType, meta.userMetadata, now)
    ensures QuotesHex(StoredMeta(h, key, data, meta, now).etag, h.md5(data))
  {
    PlainTagQuotes(h, data);
  }

  // ----- multipart assembly -----

  predicate ValidPartNumber(n: int)
  {
    1 <= n <= MAX_PART_NUMBER
  }

  function PartNumbers(completed: seq<CompletedPart>): set<int>
  {
    set i | 0 <= i < |completed| :: completed[i].partNumber
  }

  predicate NoDuplicates(completed: seq<CompletedPart>)
  {
    forall i, j :: 0 <= i < j < |completed| ==> completed[i].partNumber != completed[j].partNumber
  }

  /** The selections a completion accepts: not empty, valid numbers without duplicates, tags as recorded. */
  predicate Acceptable(parts: map<nat, Part>, completed: seq<CompletedPart>)
  {
    completed != [] && NoDuplicates(completed) && forall i :: 0 <= i < |completed| ==> Matches(parts, completed[i])
  }

  predicate Matches(parts: map<nat, Part>, c: CompletedPart)
  {
    ValidPartNumber(c.partNumber) && c.partNumber in parts && parts[c.partNumber].info.etag == c.etag
  }

  function TrimQuotes(s: string): string
  {
    TrimQuotesRight(TrimQuotesLeft(s))
  }

  function TrimQuotesLeft(s: string): string
  {
    if s != "" && s[0] == '"' then TrimQuotesLeft(s[1..]) else s
  }

  function TrimQuotesRight(s: string): string
  {
    if s != "" && s[|s| - 1] == '"' then TrimQuotesRight(s[..|s| - 1]) else s
  }

  /** The digest a tag spells, if it spells one. */
  function TagDigest(etag: string): Option<Bytes>
  {
    HexDecode(TrimQuotes(etag))
  }

  /** The data of the chosen parts numbered up to `n`, in ascending part number. */
  function DataUpTo(parts: map<nat, Part>, chosen: set<int>, n: nat): Bytes
  {
    if n == 0 then []
    else if n in chosen && n in parts then DataUpTo(parts, chosen, n - 1) + parts[n].data
    else DataUpTo(parts, chosen, n - 1)
  }

  /** The digests their tags spell, in the same order. */
  function DigestsUpTo(parts: map<nat, Part>, chosen: set<int>, n: nat): Bytes
  {
    if n == 0 then []
    else if n in chosen && n in parts && TagDigest(parts[n].info.etag).Some? then
      DigestsUpTo(parts, chosen, n - 1) + TagDigest(parts[n].info.etag).value
    else DigestsUpTo(parts, chosen, n - 1)
  }

  function Assembled(parts: map<nat, Part>, completed: seq<CompletedPart>): Bytes
  {
    DataUpTo(parts, PartNumbers(completed), MAX_PART_NUMBER)
  }

  function CompositeETag(h: Hashes, parts: map<nat, Part>, completed: seq<CompletedPart>): string
  {
    Quoted(Hex(h.md5(DigestsUpTo(parts, PartNumbers(completed), MAX_PART_NUMBER))) + "-" + Itoa(|completed|))
  }

  /** The object a completion creates. */
  function CompletedObject(h: Hashes, key: string, meta: ObjectMeta, parts: map<nat, Part>,
                           completed: seq<CompletedPart>, now: int)
    : Object
  {
    var data := Assembled(parts, completed);
    Object(data, StoredMeta(h, key, data, meta, now).(etag := CompositeETag(h, parts, completed)))
  }

  /** The part a body becomes. */
  function PartFrom(h: Hashes, n: int, body: Body, now: int): Part
  {
    var data := Concat(body.chunks);
    Part(data, MultipartPart(n, PlainETag(h, data), |data|, now))
  }

  function PartsUpTo(parts: map<nat, Part>, n: nat): seq<MultipartPart>
  {
    if n == 0 then []
    else if n in parts then PartsUpTo(parts, n - 1) + [parts[n].info]
    else PartsUpTo(parts, n - 1)
  }

  // ----- requests -----

  datatype Op =
    | CreateBucket(bucket: string, now: int)
    | DeleteBucket(bucket: string)
    | PutObject(bucket: string, key: string, body: Body, meta: ObjectMeta, now: int)
    | GetObject(bucket: string, key: string)
    | HeadObject(bucket: string, key: string)
    | DeleteObject(bucket: string, key: string)
    | DeleteObjects(bucket: string, keys: seq<string>)
    | CopyObject(bucket: string, key: string, dstBucket: string, dstKey: string, now: int)
    | RenameObject(bucket: string, key: string, dstBucket: string, dstKey: string, now: int)
    | ListObjects(bucket: string, options: ListOptions)
    | CreateUpload(bucket: string, key: string, meta: ObjectMeta, now: int, id: string)
    | UploadPart(bucket: string, key: string, id: string, partNumber: int, body: Body, now: int)
    | ListParts(bucket: string, key: string, id: string)
    | CompleteUpload(bucket: string, key: string, id: string, completed: seq<CompletedPart>, now: int)
    | AbortUpload(bucket: string, key: string, id: string)

  datatype Outcome =
    | Done
    | Fetched(data: Bytes, meta: ObjectMeta)
    | Described(meta: ObjectMeta)
    | Listed(listing: ListResult)
    | Started(id: string)
    | Stored(part: MultipartPart)
    | Parts(parts: seq<MultipartPart>)
    | Failed(error: Error)

  function WithObject(s: Store, b: string, k: string, o: Object): Store
    requires b in s
  {
    s[b := s[b].(objects := s[b].objects[k := o])]
  }

  function WithoutObject(s: Store, b: string, k: string): Store
    requires b in s
  {
    s[b := s[b].(objects := s[b].objects - {k})]
  }

  function WithUpload(s: Store, b: string, id: string, u: Upload): Store
    requires b in s
  {
    s[b := s[b].(uploads := s[b].uploads[id := u])]
  }

  function WithoutUpload(s: Store, b: string, id: string): Store
    requires b in s
  {
    s[b := s[b].(uploads := s[b].uploads - {id})]
  }

  function WithStray(s: Store, b: string, suffix: string, c: FileSystem.Content): Store
    requires b in s
  {
    s[b := s[b].(strays := s[b].strays[suffix := c])]
  }

  function WithoutObjects(s: Store, b: string, keys: seq<string>): Store
    requires b in s
    ensures b in WithoutObjects(s, b, keys)
  {
    if keys == [] then s else WithoutObject(WithoutObjects(s, b, keys[..|keys| - 1]), b, keys[|keys| - 1])
  }

  /** What is recorded of a bucket's objects. */
  function Metas(objects: map<string, Object>): set<ObjectMeta>
  {
    set k | k in objects :: objects[k].meta
  }

  /** An upload accepts operations that name its bucket, its ID and its key. */
  function FindUpload(s: Store, b: string, k: string, id: string): Result<Upload>
  {
    if b !in s then Err(BucketNotFound)
    else if id !in s[b].uploads || s[b].uploads[id].state.key != k then Err(UploadNotFound)
    else Ok(s[b].uploads[id])
  }

  function FindObject(s: Store, b: string, k: string): Result<Object>
  {
    if b !in s then Err(BucketNotFound)
    else if k !in s[b].objects then Err(ObjectNotFound)
    else Ok(s[b].objects[k])
  }

  /** The object metadata a listing works on: those with the prefix, in key order. */
  ghost predicate Enumerates(ms: seq<ObjectMeta>, objects: map<string, Object>, prefix: string)
  {
    && Ascending(ms)
    && forall m :: m in ms <==> m.key in objects && m == objects[m.key].meta && ByteStrings.HasPrefix(m.key, prefix)
  }

  // ----- what each request does: the store afterwards, and the outcome -----

  ghost function CreatingBucket(s: Store, b: string, now: int): (Store, Outcome)
  {
    if b == "" then (s, Failed(InvalidRequest))
    else if !ValidBucketName(b) then (s, Failed(InvalidBucketName))
    else if b in s then (s, Failed(BucketExists))
    else (s[b := Bucket(now, map[], map[], map[])], Done)
  }

  /** Removing a bucket, whatever its name. */
  function RemovingBucket(s: Store, b: string): (Store, Outcome)
  {
    if b !in s then (s, Failed(BucketNotFound))
    else if s[b].objects != map[] || s[b].strays != map[] then (s, Failed(BucketNotEmpty))
    else (s - {b}, Done)
  }

  ghost function DeletingBucket(s: Store, b: string): (Store, Outcome)
  {
    if b == "" then (s, Failed(InvalidRequest))
    else if !ValidBucketName(b) then (s, Failed(InvalidBucketName))
    else RemovingBucket(s, b)
  }

  function Putting(h: Hashes, s: Store, b: string, k: string, body: Body, meta: ObjectMeta, now: int): (Store, Outcome)
  {
    if b !in s then (s, Failed(BucketNotFound))
    else if body.fails then (s, Failed(BodyReadFailed))
    else (WithObject(s, b, k, ObjectFrom(h, k, body, meta, now)), Done)
  }

  function Getting(s: Store, b: string, k: string): (Store, Outcome)
  {
    match FindObject(s, b, k)
    case Ok(o) => (s, Fetched(o.data, o.meta))
    case Err(e) => (s, Failed(e))
  }

  function Heading(s: Store, b: string, k: string): (Store, Outcome)
  {
    match FindObject(s, b, k)
    case Ok(o) => (s, Described(o.meta))
    case Err(e) => (s, Failed(e))
  }

  function Deleting(s: Store, b: string, k: string): (Store, Outcome)
  {
    if b !in s then (s, Failed(BucketNotFound)) else (WithoutObject(s, b, k), Done)
  }

  function DeletingAll(s: Store, b: string, keys: seq<string>): (Store, Outcome)
  {
    if |keys| > MAX_DELETE_OBJECTS then (s, Failed(InvalidRequest))
    else if b !in s then (s, Failed(BucketNotFound))
    else (WithoutObjects(s, b, keys), Done)
  }

  function Copying(h: Hashes, s: Store, b: string, k: string, b': string, k': string, now: int): (Store, Outcome)
  {
    match FindObject(s, b, k)
    case Err(e) => (s, Failed(e))
    case Ok(o) =>
      if b' !in s then (s, Failed(BucketNotFound))
      else (WithObject(s, b', k', CopyOf(h, o, k', now)), Described(CopyOf(h, o, k', now).meta))
  }

  function Renaming(h: Hashes, s: Store, b: string, k: string, b': string, k': string, now: int): (Store, Outcome)
  {
    if b == b' && k == k' then Heading(s, b, k)
    else
      match FindObject(s, b, k)
      case Err(e) => (s, Failed(e))
      case Ok(o) =>
        if b' !in s then (s, Failed(BucketNotFound))
        else (WithoutObject(WithObject(s, b', k', CopyOf(h, o, k', now)), b, k), Described(CopyOf(h, o, k', now).meta))
  }

  ghost function ListingObjects(s: Store, b: string, options: ListOptions): (Store, Outcome)
  {
    if b !in s then (s, Failed(BucketNotFound))
    else (s, Listed(Page(Enumeration(s[b].objects, options.prefix), options)))
  }

  function Starting(s: Store, b: string, k: string, meta: ObjectMeta, now: int, id: string): (Store, Outcome)
  {
    if b !in s then (s, Failed(BucketNotFound))
    else (WithUpload(s, b, id, Upload(UploadState(id, k, now, meta), map[], map[])), Started(id))
  }

  function StoringPart(h: Hashes, s: Store, b: string, k: string, id: string, n: int, body: Body, now: int)
    : (Store, Outcome)
  {
    if !ValidPartNumber(n) then (s, Failed(InvalidPart))
    else
      match FindUpload(s, b, k, id)
      case Err(e) => (s, Failed(e))
      case Ok(u) =>
        if body.fails then (s, Failed(BodyReadFailed))
        else
          var part := PartFrom(h, n, body, now);
          (WithUpload(s, b, id, u.(parts := u.parts[n := part])), Stored(part.info))
  }

  function ListingParts(s: Store, b: string, k: string, id: string): (Store, Outcome)
  {
    match FindUpload(s, b, k, id)
    case Err(e) => (s, Failed(e))
    case Ok(u) => (s, Parts(PartsUpTo(u.parts, MAX_PART_NUMBER)))
  }

  function Completing(h: Hashes, s: Store, b: string, k: string, id: string, completed: seq<CompletedPart>, now: int)
    : (Store, Outcome)
  {
    match FindUpload(s, b, k, id)
    case Err(e) => (s, Failed(e))
    case Ok(u) =>
      if !Acceptable(u.parts, completed) then (s, Failed(InvalidPart))
      else
        var o := CompletedObject(h, k, u.state.meta, u.parts, completed, now);
        (WithoutUpload(WithObject(s, b, k, o), b, id), Described(o.meta))
  }

  function Aborting(s: Store, b: string, k: string, id: string): (Store, Outcome)
  {
    match FindUpload(s, b, k, id)
    case Err(e) => (s, Failed(e))
    case Ok(u) => (WithoutUpload(s, b, id), Done)
  }

  ghost function Apply(h: Hashes, s: Store, op: Op): (Store, Outcome)
  {
    match op
    case CreateBucket(b, now) => CreatingBucket(s, b, now)
    case DeleteBucket(b) => DeletingBucket(s, b)
    case PutObject(b, k, body, meta, now) => Putting(h, s, b, k, body, meta, now)
    case GetObject(b, k) => Getting(s, b, k)
    case HeadObject(b, k) => Heading(s, b, k)
    case DeleteObject(b, k) => Deleting(s, b, k)
    case DeleteObjects(b, keys) => DeletingAll(s, b, keys)
    case CopyObject(b, k, b', k', now) => Copying(h, s, b, k, b', k', now)
    case RenameObject(b, k, b', k', now) => Renaming(h, s, b, k, b', k', now)
    case ListObjects(b, options) => ListingObjects(s, b, options)
    case CreateUpload(b, k, meta, now, id) => Starting(s, b, k, meta, now, id)
    case UploadPart(b, k, id, n, body, now) => StoringPart(h, s, b, k, id, n, body, now)
    case ListParts(b, k, id) => ListingParts(s, b, k, id)
    case CompleteUpload(b, k, id, completed, now) => Completing(h, s, b, k, id, completed, now)
    case AbortUpload(b, k, id) => Aborting(s, b, k, id)
  }

  // ----- enumerating a bucket's keys -----

  /** The metadata of the objects with the prefix, in key order. */
  ghost function Enumeration(objects: map<string, Object>, prefix: string): seq<ObjectMeta>
  {
    if exists ms :: Enumerates(ms, objects, prefix) then
      var ms :| Enumerates(ms, objects, prefix);
      ms
    else []
  }

  /** There is only one way to put keys in order. */
  lemma {:induction false} AscendingIsUnique(a: seq<ObjectMeta>, b: seq<ObjectMeta>)
    requires Ascending(a) && Ascending(b) && forall m :: m in a <==> m in b
    ensures a == b
  {
    FirstIsMember(a);
    FirstIsMember(b);
    if a != [] {
      var m, n := |a| - 1, |b| - 1;
      assert a[m] in b;
      LastIsSame(a, b);
      AscendingParts(a, m);
      AscendingParts(b, n);
      forall x
        ensures x in a[..m] <==> x in b[..n]
      {
        InitMember(a, x);
        InitMember(b, x);
      }
      AscendingIsUnique(a[..m], b[..n]);
      assert a == a[..m] + [a[m]] && b == b[..n] + [b[n]];
    }
  }

  lemma FirstIsMember(a: seq<ObjectMeta>)
    ensures a != [] ==> a[0] in a
  {
  }

  lemma InitMember(a: seq<ObjectMeta>, x: ObjectMeta)
    requires Ascending(a) && a != []
    ensures x in a[..|a| - 1] <==> x in a && x != a[|a| - 1]
  {
    var n := |a| - 1;
    if x in a[..n] {
      var i :| 0 <= i < n && a[..n][i] == x;
      InOrder(a, i, n);
      ByteStrings.LessAsymmetric(a[i].key, a[n].key);
    }
  }

  lemma LastIsSame(a: seq<ObjectMeta>, b: seq<ObjectMeta>)
    requires Ascending(a) && Ascending(b) && a != [] && b != [] && forall m :: m in a <==> m in b
    ensures a[|a| - 1] == b[|b| - 1]
  {
    var m, n := |a| - 1, |b| - 1;
    assert a[m] in b && b[n] in a;
    var i :| 0 <= i <= n && b[i] == a[m];
    var j :| 0 <= j <= m && a[j] == b[n];
    if i < n && j < m {
      InOrder(b, i, n);
      InOrder(a, j, m);
      ByteStrings.LessAsymmetric(b[i].key, b[n].key);
    }
  }

  lemma EnumerationIs(objects: map<string, Object>, prefix: string, ms: seq<ObjectMeta>)
    requires Enumerates(ms, objects, prefix)
    ensures Enumeration(objects, prefix) == ms
  {
    AscendingIsUnique(Enumeration(objects, prefix), ms);
  }
}
