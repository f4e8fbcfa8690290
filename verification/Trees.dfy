/** What the backend's requests read from and do to the file tree. */
module Trees {
  import opened Types
  import ByteStrings
  import opened Encoding
  import opened Layout
  import opened FileSystem
  import opened ObjectStore
  import opened Assembly
  import opened Listing

  function At(t: Tree, p: Path): Option<Content>
  {
    if p in t then Some(t[p]) else None
  }

  predicate HasBucket(t: Tree, bucket: string)
  {
    RecordPath(bucket) in t
  }

  /** `GetMetadata`. */
  function MetadataAt(h: Hashes, t: Tree, bucket: string, key: string): Result<ObjectMeta>
  {
    match At(t, MetadataPath(h, bucket, key))
    case None => Err(ObjectNotFound)
    case Some(Json(MetaDoc(meta))) => Ok(meta)
    case Some(_) => Err(Undecodable)
  }

  /** `HeadObject`. */
  function HeadAt(h: Hashes, t: Tree, bucket: string, key: string): Result<ObjectMeta>
  {
    if !HasBucket(t, bucket) then Err(BucketNotFound) else MetadataAt(h, t, bucket, key)
  }

  /** `GetObject`: data and metadata. */
  function ObjectAt(h: Hashes, t: Tree, bucket: string, key: string): Result<Object>
  {
    match HeadAt(h, t, bucket, key)
    case Err(e) => Err(e)
    case Ok(meta) =>
      match At(t, ObjectPath(h, bucket, key))
      case None => Err(ObjectNotFound)
      case Some(Raw(data)) => Ok(Object(data, meta))
      case Some(_) => Err(Undecodable)
  }

  function WithData(h: Hashes, t: Tree, bucket: string, key: string, data: Bytes): Tree
  {
    t[ObjectPath(h, bucket, key) := Raw(data)]
  }

  function WithMetadata(h: Hashes, t: Tree, bucket: string, key: string, meta: ObjectMeta): Tree
  {
    t[MetadataPath(h, bucket, key) := Json(MetaDoc(meta))]
  }

  /** The tree after an object has been stored. */
  function PutTree(h: Hashes, t: Tree, bucket: string, key: string, o: Object): Tree
  {
    WithMetadata(h, WithData(h, t, bucket, key, o.data), bucket, key, o.meta)
  }

  function DeleteTree(h: Hashes, t: Tree, bucket: string, key: string): Tree
  {
    if ObjectPath(h, bucket, key) in t then t - {ObjectPath(h, bucket, key), MetadataPath(h, bucket, key)} else t
  }

  function TempPath(bucket: string, suffix: string): Path
  {
    ObjectsDir(bucket) + [".tmp-" + suffix]
  }

  /** The trees a crash during a put can leave: apart from the temporary file, the tree as before, or with the new
      data, or with the new data and the metadata emptied or new. */
  ghost predicate PutStage(h: Hashes, before: Tree, bucket: string, key: string, tmp: Path, o: Object, t: Tree)
  {
    var rest, stored := t - {tmp}, WithData(h, before, bucket, key, o.data);
    || rest == before
    || rest == stored
    || rest == stored[MetadataPath(h, bucket, key) := Raw([])]
    || rest == PutTree(h, before, bucket, key, o)
  }

  /** Everything reached from `r0` to `r1` is such a stage. */
  ghost predicate PutStages(h: Hashes, before: Tree, bucket: string, key: string, tmp: Path, o: Object, r0: set<Tree>,
                            r1: set<Tree>)
  {
    forall t :: t in r1 ==> t in r0 || PutStage(h, before, bucket, key, tmp, o, t)
  }

  /** The trees a crash during a delete can leave. */
  ghost predicate DeleteStage(h: Hashes, before: Tree, bucket: string, key: string, t: Tree)
  {
    t == before || t == before - {ObjectPath(h, bucket, key)} || t == DeleteTree(h, before, bucket, key)
  }

  predicate DataIsRaw(h: Hashes, t: Tree, bucket: string, key: string)
  {
    HasBucket(t, bucket) && ObjectPath(h, bucket, key) in t ==> t[ObjectPath(h, bucket, key)].Raw?
  }

  /** What a copy reports. */
  function CopyResult(h: Hashes, t: Tree, srcBucket: string, srcKey: string, dstBucket: string, dstKey: string,
                      now: int)
    : Result<ObjectMeta>
  {
    match ObjectAt(h, t, srcBucket, srcKey)
    case Err(e) => Err(e)
    case Ok(o) => if HasBucket(t, dstBucket) then Ok(CopyOf(h, o, dstKey, now).meta) else Err(BucketNotFound)
  }

  function CopyTree(h: Hashes, t: Tree, srcBucket: string, srcKey: string, dstBucket: string, dstKey: string, now: int)
    : Tree
    requires ObjectAt(h, t, srcBucket, srcKey).Ok?
  {
    PutTree(h, t, dstBucket, dstKey, CopyOf(h, ObjectAt(h, t, srcBucket, srcKey).value, dstKey, now))
  }

  function RenameTree(h: Hashes, t: Tree, srcBucket: string, srcKey: string, dstBucket: string, dstKey: string,
                      now: int): Tree
    requires ObjectAt(h, t, srcBucket, srcKey).Ok?
  {
    DeleteTree(h, CopyTree(h, t, srcBucket, srcKey, dstBucket, dstKey, now), srcBucket, srcKey)
  }

  /** The trees a crash during a rename can leave: those of the copy, then those of deleting the source. */
  ghost predicate RenameStages(h: Hashes, before: Tree, srcBucket: string, srcKey: string, dstBucket: string,
                               dstKey: string, now: int, tmp: Path, r0: set<Tree>, r1: set<Tree>)
  {
    match ObjectAt(h, before, srcBucket, srcKey)
    case Err(_) => r1 == r0
    case Ok(o) => forall t :: t in r1 ==>
      || t in r0
      || PutStage(h, before, dstBucket, dstKey, tmp, CopyOf(h, o, dstKey, now), t)
      || DeleteStage(h, PutTree(h, before, dstBucket, dstKey, CopyOf(h, o, dstKey, now)), srcBucket, srcKey, t)
  }

  /** No temporary file can stand where an object or its metadata goes. */
  lemma TempIsElsewhere(h: Hashes, bucket: string, key: string, suffix: string)
    ensures TempPath(bucket, suffix) != ObjectPath(h, bucket, key)
    ensures TempPath(bucket, suffix) != MetadataPath(h, bucket, key)
    ensures ObjectPath(h, bucket, key) != MetadataPath(h, bucket, key)
    ensures Parent(ObjectPath(h, bucket, key)) == ObjectsDir(bucket)
            && Parent(MetadataPath(h, bucket, key)) == MetadataDir(bucket)
  {
    var n := |BucketPath(bucket)|;
    assert TempPath(bucket, suffix)[n] == ".objects" && ObjectPath(h, bucket, key)[n] == ".objects";
    assert MetadataPath(h, bucket, key)[n] == ".metadata";
    assert TempPath(bucket, suffix)[n + 1][0] == '.';
    HexRoundTrip(h.sha256(key));
    assert ObjectPath(h, bucket, key)[n + 1] == ObjectFileName(h, key);
  }

  /** The tree without a bucket's directory and its record. */
  function DropBucketTree(t: Tree, bucket: string): Tree
  {
    Without(Without(t, BucketPath(bucket)), RecordDir(bucket))
  }

  /** What deleting a bucket reports: the name is not checked, only what is there. */
  ghost function DeletionResult(fs: FS, bucket: string): Result<()>
  {
    var inside := KindOf(fs, ObjectsDir(bucket));
    match KindOf(fs, BucketPath(bucket))
    case Missing => Err(BucketNotFound)
    case Blocked => Err(NotADirectory)
    case _ =>
      if inside == File || inside == Blocked then Err(NotADirectory)
      else if HasChild(fs, ObjectsDir(bucket)) then Err(BucketNotEmpty)
      else Ok(())
  }

  function DeletionDirs(dirs: set<Path>, bucket: string): set<Path>
  {
    set d | d in dirs && !Under(BucketPath(bucket), d) && !Under(RecordDir(bucket), d)
  }

  // ----- uploads -----

  /** `readUpload`. */
  function UploadAt(h: Hashes, t: Tree, bucket: string, key: string, id: string): Result<UploadState>
  {
    if !HasBucket(t, bucket) then Err(BucketNotFound)
    else
      match At(t, UploadPath(UploadDir(h, bucket, id)))
      case None => Err(UploadNotFound)
      case Some(Json(UploadDoc(state))) =>
        if state.uploadId != id || state.key != key then Err(UploadNotFound) else Ok(state)
      case Some(_) => Err(Undecodable)
  }

  /** The part stored under a number: its metadata and data files. */
  function PartAt(t: Tree, dir: Path, n: nat): Option<Part>
  {
    match (At(t, PartMetadataPath(dir, n)), At(t, PartDataPath(dir, n)))
    case (Some(Json(PartDoc(info))), Some(Raw(data))) => Some(Part(data, info))
    case _ => None
  }

  /** The parts an upload directory holds. */
  function PartsIn(t: Tree, dir: Path): map<nat, Part>
  {
    map n | 1 <= n <= MAX_PART_NUMBER && PartAt(t, dir, n).Some? :: PartAt(t, dir, n).value
  }

  function PartTree(t: Tree, dir: Path, part: Part): Tree
    requires part.info.partNumber >= 0
  {
    var withData := t[PartDataPath(dir, part.info.partNumber) := Raw(part.data)];
    withData[PartMetadataPath(dir, part.info.partNumber) := Json(PartDoc(part.info))]
  }

  ghost predicate PartDataIsRaw(t: Tree, dir: Path)
  {
    forall n: nat :: PartDataPath(dir, n) in t ==> t[PartDataPath(dir, n)].Raw?
  }

  /** The object a completion makes of the parts in the tree. */
  function CompletionAt(h: Hashes, t: Tree, bucket: string, key: string, id: string, completed: seq<CompletedPart>,
                        now: int): Object
    requires UploadAt(h, t, bucket, key, id).Ok?
  {
    CompletedObject(h, key, UploadAt(h, t, bucket, key, id).value.meta, PartsIn(t, UploadDir(h, bucket, id)),
      completed, now)
  }

  function CompleteResult(h: Hashes, t: Tree, bucket: string, key: string, id: string, completed: seq<CompletedPart>,
                          now: int)
    : Result<ObjectMeta>
  {
    match UploadAt(h, t, bucket, key, id)
    case Err(e) => Err(e)
    case Ok(_) =>
      if Selectable(PartsIn(t, UploadDir(h, bucket, id)), completed)
      then Ok(CompletionAt(h, t, bucket, key, id, completed, now).meta)
      else Err(InvalidPart)
  }

  function CompleteTree(h: Hashes, t: Tree, bucket: string, key: string, dir: Path, o: Object): Tree
  {
    Without(PutTree(h, t, bucket, key, o), dir)
  }

  function CombinedPath(dir: Path, suffix: string): Path
  {
    dir + [".combined-" + suffix]
  }

  /** The object under its plain tag, as the put inside a completion stores it. */
  function WithPlainTag(h: Hashes, o: Object): Object
  {
    o.(meta := o.meta.(etag := PlainETag(h, o.data)))
  }

  /** The trees a crash during a completion can leave: with the combined file growing, those of the put, the one with
      the metadata emptied for its final version, and those of removing the finished upload. */
  ghost predicate CompleteStage(h: Hashes, before: Tree, bucket: string, key: string, dir: Path, combined: Path,
                                tmp: Path, final: Object, t: Tree)
  {
    var ready := before[combined := Raw(final.data)];
    || t - {combined} == before
    || PutStage(h, ready, bucket, key, tmp, WithPlainTag(h, final), t)
    || t == PutTree(h, ready, bucket, key, WithPlainTag(h, final))[MetadataPath(h, bucket, key) := Raw([])]
    || RemovalStage(PutTree(h, ready, bucket, key, final), dir, t)
  }

  ghost predicate CompleteStages(h: Hashes, before: Tree, bucket: string, key: string, dir: Path,
                                 combinedSuffix: string, suffix: string, final: Object, r0: set<Tree>, r1: set<Tree>)
  {
    forall t :: t in r1 ==>
      t in r0 || CompleteStage(h, before, bucket, key, dir, CombinedPath(dir, combinedSuffix),
        TempPath(bucket, suffix), final, t)
  }

  predicate HasSuffix(s: string, suffix: string)
  {
    |suffix| <= |s| && s[|s| - |suffix|..] == suffix
  }

  predicate IsPartMetadataName(name: string)
  {
    ByteStrings.HasPrefix(name, "part-") && HasSuffix(name, ".json")
  }

  // ----- listings -----

  /** `name` is a readable metadata file for `m`, whose key has the prefix. */
  predicate DescribedBy(t: Tree, dir: Path, name: string, prefix: string, m: ObjectMeta)
  {
    At(t, dir + [name]) == Some(Json(MetaDoc(m))) && ByteStrings.HasPrefix(m.key, prefix)
  }

  /** The metadata of each such file, once, in the order of `files`. */
  ghost predicate Collects(t: Tree, dir: Path, prefix: string, files: seq<string>, results: seq<ObjectMeta>)
  {
    && |files| == |results|
    && (forall i, j :: 0 <= i < j < |files| ==> files[i] != files[j])
    && (forall i :: 0 <= i < |files| ==> DescribedBy(t, dir, files[i], prefix, results[i]))
  }

  /** No two metadata files describe the same key. */
  ghost predicate KeysAreApart(t: Tree, dir: Path)
  {
    forall a, b, m, m' :: DescribedBy(t, dir, a, "", m) && DescribedBy(t, dir, b, "", m') && m.key == m'.key ==> a == b
  }

  /** Some metadata file describes `m`. */
  ghost predicate IsListed(t: Tree, dir: Path, prefix: string, m: ObjectMeta)
  {
    exists name :: DescribedBy(t, dir, name, prefix, m)
  }

  /** The described keys with the prefix, in key order. */
  ghost predicate InKeyOrder(t: Tree, dir: Path, prefix: string, ms: seq<ObjectMeta>)
  {
    Ascending(ms) && forall m :: m in ms <==> IsListed(t, dir, prefix, m)
  }

  /** Only one sequence is in key order, so the order in which the directory is read plays no part. */
  lemma KeyOrderIsUnique(t: Tree, dir: Path, prefix: string, a: seq<ObjectMeta>, b: seq<ObjectMeta>)
    requires InKeyOrder(t, dir, prefix, a) && InKeyOrder(t, dir, prefix, b)
    ensures a == b
  {
    AscendingIsUnique(a, b);
  }

  /** `name` is a part's metadata file, for `p`. */
  predicate DescribesPart(t: Tree, dir: Path, name: string, p: MultipartPart)
  {
    IsPartMetadataName(name) && At(t, dir + [name]) == Some(Json(PartDoc(p)))
  }

  /** `name` is a part's metadata file that does not decode. */
  predicate BrokenPart(t: Tree, dir: Path, name: string)
  {
    IsPartMetadataName(name) && dir + [name] in t && !(t[dir + [name]].Json? && t[dir + [name]].doc.PartDoc?)
  }

  /** No two part files describe the same number. */
  ghost predicate NumbersAreApart(t: Tree, dir: Path)
  {
    forall a, b, p, q :: DescribesPart(t, dir, a, p) && DescribesPart(t, dir, b, q) && p.partNumber == q.partNumber ==>
      a == b
  }

  predicate AscendingNumbers(parts: seq<MultipartPart>)
  {
    forall i, j :: 0 <= i < j < |parts| ==> parts[i].partNumber < parts[j].partNumber
  }
}
