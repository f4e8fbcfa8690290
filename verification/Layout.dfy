/** Where everything is stored, and why no two things share a path. */
module Layout {
  import opened Types
  import opened Encoding
  import opened BucketNames

  /** A cleaned absolute path, segment by segment. */
  type Path = seq<string>

  /** The digests the backend computes.  Nothing is assumed of MD5; SHA-256 digests have 32 bytes and do not collide
      on the keys and upload IDs in use. */
  datatype Hashes = Hashes(sha256: string -> Bytes, md5: Bytes -> Bytes)

  ghost predicate Collisionless(h: Hashes, used: set<string>)
  {
    && (forall a {:trigger h.sha256(a)} :: a in used ==> |h.sha256(a)| == 32)
    && (forall a, b {:trigger SameDigest(h, a, b)} :: a in used && b in used && SameDigest(h, a, b) ==> a == b)
  }

  predicate SameDigest(h: Hashes, a: string, b: string)
  {
    h.sha256(a) == h.sha256(b)
  }

  /** A name that is one segment of a path, as the bucket names of requests are. */
  predicate IsSegment(name: string)
  {
    '/' !in name
  }

  function FirstSlash(name: string): (i: nat)
    ensures i <= |name| && IsSegment(name[..i]) && (i < |name| ==> name[i] == '/')
    ensures i == |name| <==> IsSegment(name)
  {
    if name == "" || name[0] == '/' then 0 else 1 + FirstSlash(name[1..])
  }

  lemma FirstSegment(segment: string, rest: string)
    requires IsSegment(segment)
    ensures var all := segment + "/" + rest;
            var i := FirstSlash(all);
            i < |all| && all[..i] == segment && all[i + 1..] == rest
  {
    var all := segment + "/" + rest;
    var i := FirstSlash(all);
    assert all[|segment|] == '/';
    assert forall j :: 0 <= j < |segment| ==> all[j] == segment[j];
    assert forall j :: 0 <= j < i ==> all[j] in all[..i];
  }

  /** One segment of a path that is being cleaned: `..` goes up, though not above the root. */
  function Enter(dir: Path, segment: string): Path
  {
    if segment == "" || segment == "." then dir
    else if segment == ".." then (if dir == [] then [] else Parent(dir))
    else dir + [segment]
  }

  /** `filepath.Join(dir, name)`, which cleans what it joins. */
  function Join(dir: Path, name: string): Path
    decreases |name|
  {
    var i := FirstSlash(name);
    if i == |name| then Enter(dir, name) else Join(Enter(dir, name[..i]), name[i + 1..])
  }

  lemma JoinSegment(dir: Path, name: string)
    requires IsSegment(name)
    ensures Join(dir, name) == Enter(dir, name)
  {
  }

  /** The data directory, `/data`. */
  const BASE_PATH: Path := ["data"]

  function BucketPath(bucket: string): Path
  {
    Join(BASE_PATH, bucket)
  }

  function RecordDir(bucket: string): Path
  {
    Join(BASE_PATH + ["bucket_metadata"], bucket)
  }

  function RecordPath(bucket: string): Path
  {
    RecordDir(bucket) + [".bucket.json"]
  }

  function ObjectFileName(h: Hashes, key: string): string
  {
    Hex(h.sha256(key))
  }

  function ObjectsDir(bucket: string): Path
  {
    BucketPath(bucket) + [".objects"]
  }

  function ObjectPath(h: Hashes, bucket: string, key: string): Path
  {
    ObjectsDir(bucket) + [ObjectFileName(h, key)]
  }

  function MetadataDir(bucket: string): Path
  {
    BucketPath(bucket) + [".metadata"]
  }

  function MetadataPath(h: Hashes, bucket: string, key: string): Path
  {
    MetadataDir(bucket) + [ObjectFileName(h, key) + ".json"]
  }

  function MultipartDir(bucket: string): Path
  {
    BucketPath(bucket) + [".multipart"]
  }

  function UploadDir(h: Hashes, bucket: string, id: string): Path
  {
    MultipartDir(bucket) + [ObjectFileName(h, id)]
  }

  function UploadPath(uploadDir: Path): Path
  {
    uploadDir + ["upload.json"]
  }

  function PartName(n: nat): string
  {
    "part-" + Itoa(n)
  }

  function PartDataPath(uploadDir: Path, n: nat): Path
  {
    uploadDir + [PartName(n) + ".data"]
  }

  function PartMetadataPath(uploadDir: Path, n: nat): Path
  {
    uploadDir + [PartName(n) + ".json"]
  }

  predicate Under(dir: Path, p: Path)
  {
    |dir| <= |p| && p[..|dir|] == dir
  }

  function Parent(p: Path): Path
    requires p != []
  {
    p[..|p| - 1]
  }

  /** The files that hold the store's state, and the temporary files that requests cut short have left beside objects
      and parts. */
  datatype FileId =
    | BucketRecord(bucket: string)
    | ObjectData(bucket: string, key: string)
    | ObjectMetadata(bucket: string, key: string)
    | UploadRecord(bucket: string, id: string)
    | PartData(bucket: string, id: string, number: nat)
    | PartMetadata(bucket: string, id: string, number: nat)
    | ObjectStray(bucket: string, suffix: string)
    | UploadStray(bucket: string, id: string, name: string)

  function PathOf(h: Hashes, f: FileId): Path
  {
    match f
    case BucketRecord(b) => RecordPath(b)
    case ObjectData(b, k) => ObjectPath(h, b, k)
    case ObjectMetadata(b, k) => MetadataPath(h, b, k)
    case UploadRecord(b, id) => UploadPath(UploadDir(h, b, id))
    case PartData(b, id, n) => PartDataPath(UploadDir(h, b, id), n)
    case PartMetadata(b, id, n) => PartMetadataPath(UploadDir(h, b, id), n)
    case ObjectStray(b, suffix) => ObjectsDir(b) + [".tmp-" + suffix]
    case UploadStray(b, id, name) => UploadDir(h, b, id) + ["." + name]
  }

  /** Files of validly named buckets, with keys and upload IDs from `used`. */
  ghost predicate Known(f: FileId, used: set<string>)
  {
    && ValidBucketName(f.bucket)
    && match f
       case BucketRecord(_) => true
       case ObjectData(_, k) => k in used
       case ObjectMetadata(_, k) => k in used
       case UploadRecord(_, id) => id in used
       case PartData(_, id, _) => id in used
       case PartMetadata(_, id, _) => id in used
       case ObjectStray(_, _) => true
       case UploadStray(_, id, _) => id in used
  }

  lemma CancelAround(before: string, x: string, y: string, after: string)
    requires before + x + after == before + y + after
    ensures x == y
  {
    var s, t := before + x + after, before + y + after;
    assert x == s[|before|..|before| + |x|];
    assert y == t[|before|..|before| + |y|];
  }

  lemma SameStem(x: string, y: string, after: string)
    requires x + after == y + after
    ensures x == y
  {
    assert "" + x + after == x + after && "" + y + after == y + after;
    CancelAround("", x, y, after);
  }

  lemma ValidNameIsSegment(bucket: string)
    requires ValidBucketName(bucket)
    ensures BucketPath(bucket) == ["data", bucket] && RecordDir(bucket) == ["data", "bucket_metadata", bucket]
    ensures bucket != "bucket_metadata"
  {
    ValidNamesAreSafe(bucket);
  }

  /** The paths of valid buckets' files, spelled out. */
  lemma Spelled(h: Hashes, f: FileId)
    requires ValidBucketName(f.bucket)
    ensures f.bucket != "bucket_metadata"
    ensures PathOf(h, f) ==
            match f
            case BucketRecord(b) => ["data", "bucket_metadata", b, ".bucket.json"]
            case ObjectData(b, k) => ["data", b, ".objects", ObjectFileName(h, k)]
            case ObjectMetadata(b, k) => ["data", b, ".metadata", ObjectFileName(h, k) + ".json"]
            case UploadRecord(b, id) => ["data", b, ".multipart", ObjectFileName(h, id), "upload.json"]
            case PartData(b, id, n) => ["data", b, ".multipart", ObjectFileName(h, id), PartName(n) + ".data"]
            case PartMetadata(b, id, n) => ["data", b, ".multipart", ObjectFileName(h, id), PartName(n) + ".json"]
            case ObjectStray(b, suffix) => ["data", b, ".objects", ".tmp-" + suffix]
            case UploadStray(b, id, name) => ["data", b, ".multipart", ObjectFileName(h, id), "." + name]
  {
    ValidNameIsSegment(f.bucket);
  }

  /** Records are below `bucket_metadata`, all other files below their buckets. */
  lemma Location(h: Hashes, f: FileId)
    requires ValidBucketName(f.bucket)
    ensures var p := PathOf(h, f);
            && |p| >= 4 && p[0] == "data"
            && (if f.BucketRecord? then p[1] == "bucket_metadata" && p[2] == f.bucket && p[3] == ".bucket.json"
                else p[1] == f.bucket)
  {
    Spelled(h, f);
  }

  lemma SameFileName(h: Hashes, used: set<string>, a: string, b: string)
    requires Collisionless(h, used) && a in used && b in used
    requires ObjectFileName(h, a) == ObjectFileName(h, b)
    ensures a == b
  {
    HexInjective(h.sha256(a), h.sha256(b));
    assert SameDigest(h, a, b);
  }

  lemma SamePartName(m: nat, n: nat, suffix: string)
    requires PartName(m) + suffix == PartName(n) + suffix
    ensures m == n
  {
    CancelAround("part-", Itoa(m), Itoa(n), suffix);
    ItoaInjective(m, n);
  }

  lemma UploadFileNamesDiffer(m: nat, n: nat)
    ensures PartName(m) + ".data" != PartName(n) + ".json"
    ensures PartName(m) + ".data" != "upload.json" && PartName(m) + ".json" != "upload.json"
  {
    var d, j, u := PartName(m) + ".data", PartName(n) + ".json", "upload.json";
    assert d[|d| - 1] == 'a' && j[|j| - 1] == 'n';
    assert d[0] == 'p' && (PartName(m) + ".json")[0] == 'p' && u[0] == 'u';
  }

  /** No two files share a path, whatever their buckets, keys, uploads and part numbers. */
  lemma PathsAreDistinct(h: Hashes, used: set<string>, f: FileId, g: FileId)
    requires Collisionless(h, used) && Known(f, used) && Known(g, used)
    requires PathOf(h, f) == PathOf(h, g)
    ensures f == g
  {
    Spelled(h, f);
    Spelled(h, g);
    var p := PathOf(h, f);
    assert p == PathOf(h, g);
    if f.BucketRecord? || g.BucketRecord? {
      assert f.BucketRecord? <==> p[1] == "bucket_metadata";
      assert g.BucketRecord? <==> p[1] == "bucket_metadata";
      assert p[2] == f.bucket && p[2] == g.bucket;
    } else {
      assert p[1] == f.bucket == g.bucket;
      assert p[2] == ".objects" <==> f.ObjectData? || f.ObjectStray?;
      assert p[2] == ".objects" <==> g.ObjectData? || g.ObjectStray?;
      assert p[2] == ".metadata" <==> f.ObjectMetadata?;
      assert p[2] == ".metadata" <==> g.ObjectMetadata?;
      if f.ObjectData? || f.ObjectStray? {
        ObjectFilesDistinct(h, used, f, g);
      } else if f.ObjectMetadata? {
        SameStem(ObjectFileName(h, f.key), ObjectFileName(h, g.key), ".json");
        SameFileName(h, used, f.key, g.key);
      } else {
        SameFileName(h, used, f.id, g.id);
        UploadFilesDistinct(h, f, g);
      }
    }
  }

  lemma ObjectFilesDistinct(h: Hashes, used: set<string>, f: FileId, g: FileId)
    requires Collisionless(h, used) && Known(f, used) && Known(g, used) && PathOf(h, f) == PathOf(h, g)
    requires (f.ObjectData? || f.ObjectStray?) && (g.ObjectData? || g.ObjectStray?) && f.bucket == g.bucket
    ensures f == g
  {
    Spelled(h, f);
    Spelled(h, g);
    assert PathOf(h, f)[3] == PathOf(h, g)[3];
    if f.ObjectData? && g.ObjectData? {
      SameFileName(h, used, f.key, g.key);
    } else if f.ObjectStray? && g.ObjectStray? {
      CancelAround(".tmp-", f.suffix, g.suffix, "");
    } else {
      HexRoundTrip(h.sha256(if f.ObjectData? then f.key else g.key));
      assert false;
    }
  }

  lemma UploadFilesDistinct(h: Hashes, f: FileId, g: FileId)
    requires ValidBucketName(f.bucket) && ValidBucketName(g.bucket) && PathOf(h, f) == PathOf(h, g)
    requires f.UploadRecord? || f.PartData? || f.PartMetadata? || f.UploadStray?
    requires g.UploadRecord? || g.PartData? || g.PartMetadata? || g.UploadStray?
    requires f.bucket == g.bucket && f.id == g.id
    ensures f == g
  {
    Spelled(h, f);
    Spelled(h, g);
    var name := PathOf(h, f)[4];
    assert name == PathOf(h, g)[4];
    var m := if f.PartData? || f.PartMetadata? then f.number else 0;
    var n := if g.PartData? || g.PartMetadata? then g.number else 0;
    UploadFileNamesDiffer(m, n);
    UploadFileNamesDiffer(n, m);
    if f.UploadStray? || g.UploadStray? {
      StraysHaveDots(h, f);
      StraysHaveDots(h, g);
      assert f.UploadStray? && g.UploadStray?;
      CancelAround(".", f.name, g.name, "");
    } else if f.PartData? && g.PartData? {
      SamePartName(m, n, ".data");
    } else if f.PartMetadata? && g.PartMetadata? {
      SamePartName(m, n, ".json");
    }
  }

  lemma StraysHaveDots(h: Hashes, f: FileId)
    requires ValidBucketName(f.bucket) && (f.UploadRecord? || f.PartData? || f.PartMetadata? || f.UploadStray?)
    ensures var p := PathOf(h, f); |p| == 5 && p[4] != "" && (p[4][0] == '.' <==> f.UploadStray?)
  {
    Spelled(h, f);
    if f.PartData? || f.PartMetadata? {
      assert PathOf(h, f)[4][0] == PartName(f.number)[0] == 'p';
    }
  }

  /** Files of requests cut short. */
  predicate IsStray(f: FileId)
  {
    f.ObjectStray? || f.UploadStray?
  }

  /** Otherwise only bucket records have a name that starts with a dot. */
  lemma DottedIsRecord(h: Hashes, used: set<string>, f: FileId)
    requires Collisionless(h, used) && Known(f, used)
    ensures PathOf(h, f) != [] && PathOf(h, f)[|PathOf(h, f)| - 1] != ""
    ensures PathOf(h, f)[|PathOf(h, f)| - 1][0] == '.' <==> f.BucketRecord? || IsStray(f)
  {
    Spelled(h, f);
    var p := PathOf(h, f);
    if f.ObjectData? || f.ObjectMetadata? {
      HexRoundTrip(h.sha256(f.key));
      assert p[|p| - 1][0] == ObjectFileName(h, f.key)[0];
    } else if f.PartData? || f.PartMetadata? {
      assert p[|p| - 1][0] == 'p';
    }
  }

  /** Temporary files never take the path of a stored file. */
  lemma TemporaryIsNoFile(h: Hashes, used: set<string>, f: FileId, dir: Path, name: string)
    requires Collisionless(h, used) && Known(f, used) && !IsStray(f)
    requires |name| >= 2 && name[0] == '.' && name[1] != 'b'
    ensures PathOf(h, f) != dir + [name]
  {
    DottedIsRecord(h, used, f);
    assert (dir + [name])[|dir|] == name;
  }

  // ----- which file a path can be -----

  lemma TemporaryIsNoRecord()
    ensures forall suffix: string :: ".tmp-" + suffix != ".bucket.json"
  {
    forall suffix: string
      ensures ".tmp-" + suffix != ".bucket.json"
    {
      assert (".tmp-" + suffix)[1] == 't';
    }
  }

  lemma RecordOf(h: Hashes, used: set<string>, f: FileId, name: string)
    requires Collisionless(h, used) && Known(f, used) && IsSegment(name) && PathOf(h, f) == RecordPath(name)
    ensures f == BucketRecord(name)
  {
    DottedIsRecord(h, used, f);
    Spelled(h, f);
    var p := RecordPath(name);
    assert p[|p| - 1] == ".bucket.json" && |p| <= 4;
    assert ".bucket.json"[1] == 'b';
    TemporaryIsNoRecord();
    assert p[2] == f.bucket;
    assert |RecordDir(name)| == 3 && p[2] == RecordDir(name)[2];
  }

  lemma ObjectOf(h: Hashes, used: set<string>, f: FileId, bucket: string, name: string)
    requires Known(f, used) && ValidBucketName(bucket) && PathOf(h, f) == ObjectsDir(bucket) + [name]
    ensures f.bucket == bucket
    ensures (f.ObjectData? && name == ObjectFileName(h, f.key)) || (f.ObjectStray? && name == ".tmp-" + f.suffix)
  {
    Spelled(h, f);
    ValidNameIsSegment(bucket);
    var p := ObjectsDir(bucket) + [name];
    assert p[1] == bucket && p[2] == ".objects" && p[3] == name;
  }

  lemma MetadataOf(h: Hashes, used: set<string>, f: FileId, bucket: string, name: string)
    requires Known(f, used) && ValidBucketName(bucket) && PathOf(h, f) == MetadataDir(bucket) + [name]
    ensures f.ObjectMetadata? && f.bucket == bucket && name == ObjectFileName(h, f.key) + ".json"
  {
    Spelled(h, f);
    ValidNameIsSegment(bucket);
    var p := MetadataDir(bucket) + [name];
    assert p[1] == bucket && p[2] == ".metadata" && p[3] == name;
  }

  /** Is it a file of this upload? */
  predicate OfUpload(f: FileId, bucket: string, id: string)
  {
    (f.UploadRecord? || f.PartData? || f.PartMetadata? || f.UploadStray?) && f.bucket == bucket && f.id == id
  }

  /** An upload's directory holds that upload's files. */
  lemma UnderUpload(h: Hashes, used: set<string>, f: FileId, bucket: string, id: string)
    requires Collisionless(h, used) && Known(f, used) && ValidBucketName(bucket) && id in used
    ensures Under(UploadDir(h, bucket, id), PathOf(h, f)) <==> OfUpload(f, bucket, id)
  {
    Spelled(h, f);
    ValidNameIsSegment(bucket);
    var dir, p := UploadDir(h, bucket, id), PathOf(h, f);
    assert dir == ["data", bucket, ".multipart", ObjectFileName(h, id)];
    if Under(dir, p) {
      assert p[1] == p[..4][1] && p[2] == p[..4][2] && p[3] == p[..4][3];
      if f.UploadRecord? || f.PartData? || f.PartMetadata? || f.UploadStray? {
        SameFileName(h, used, f.id, id);
      }
    }
  }

  /** A bucket's directory holds its objects and uploads. */
  lemma UnderBucket(h: Hashes, used: set<string>, f: FileId, bucket: string)
    requires Known(f, used) && ValidBucketName(bucket)
    ensures Under(BucketPath(bucket), PathOf(h, f)) <==> f.bucket == bucket && !f.BucketRecord?
    ensures Under(RecordDir(bucket), PathOf(h, f)) <==> f == BucketRecord(bucket)
  {
    Spelled(h, f);
    ValidNameIsSegment(bucket);
    var p := PathOf(h, f);
    assert p[..2][1] == p[1] && p[..3][1] == p[1] && p[..3][2] == p[2];
  }
}
