/** The directories that exist beside the store's files, and deleting buckets, which goes by them. */
module Directories {
  import opened Types
  import opened BucketNames
  import opened Layout
  import opened FileSystem
  import opened ObjectStore
  import opened Assembly
  import opened Trees
  import opened Refinement
  import opened Preservation

  /** The data directory and what is above it, the directories of records, and those of the store's buckets: their
      upload directories too, but nothing below `.objects` or `.metadata`. */
  predicate DirOk(d: Path, s: Store)
  {
    || d == []
    || d == BASE_PATH
    || (|d| >= 2 && d[0] == "data" && (BelowRecords(d) || BelowBucket(d, s)))
  }

  predicate BelowRecords(d: Path)
  {
    2 <= |d| <= 3 && d[1] == "bucket_metadata"
  }

  predicate BelowBucket(d: Path, s: Store)
  {
    2 <= |d| <= 4 && d[1] in s && (|d| == 4 ==> d[2] == ".multipart")
  }

  ghost predicate DirsOk(dirs: set<Path>, s: Store)
  {
    (forall d :: d in dirs ==> DirOk(d, s)) && (forall b :: b in s ==> ["data", b] in dirs)
  }

  lemma PrefixOk(d: Path, i: nat, s: Store)
    requires i <= |d| && DirOk(d, s)
    ensures DirOk(d[..i], s)
  {
    var e := d[..i];
    assert i >= 1 ==> e[0] == d[0];
    assert i >= 2 ==> e[1] == d[1];
    assert i >= 3 ==> e[2] == d[2];
  }

  /** Making a directory, and those above it. */
  lemma MakeDir(dirs: set<Path>, s: Store, dir: Path)
    requires DirsOk(dirs, s) && DirOk(dir, s)
    ensures DirsOk(dirs + Ancestors(dir), s)
  {
    forall d | d in Ancestors(dir)
      ensures DirOk(d, s)
    {
      var i :| 0 <= i <= |dir| && d == dir[..i];
      PrefixOk(dir, i, s);
    }
  }

  lemma SameBucketsSameDirs(dirs: set<Path>, s: Store, s': Store)
    requires DirsOk(dirs, s) && s.Keys == s'.Keys
    ensures DirsOk(dirs, s')
  {
    assert forall b :: b in s' <==> b in s.Keys;
  }

  lemma ObjectDirsOk(s: Store, b: string)
    requires b in s && ValidBucketName(b)
    ensures DirOk(ObjectsDir(b), s) && DirOk(MetadataDir(b), s)
  {
    ValidNameIsSegment(b);
  }

  lemma UploadDirOk(h: Hashes, s: Store, b: string, id: string)
    requires b in s && ValidBucketName(b)
    ensures DirOk(UploadDir(h, b, id), s)
  {
    ValidNameIsSegment(b);
  }

  lemma CreateBucketDirs(dirs: set<Path>, s: Store, b: string, bucket: Bucket)
    requires DirsOk(dirs, s) && ValidBucketName(b)
    ensures DirsOk(dirs + Ancestors(BucketPath(b)) + Ancestors(RecordDir(b)), s[b := bucket])
  {
    ValidNameIsSegment(b);
    var s' := s[b := bucket];
    assert ["data", b] == BucketPath(b)[..2];
    forall d | d in Ancestors(BucketPath(b)) + Ancestors(RecordDir(b))
      ensures DirOk(d, s')
    {
      if d in Ancestors(BucketPath(b)) {
        var i :| 0 <= i <= 2 && d == BucketPath(b)[..i];
        PrefixOk(BucketPath(b), i, s');
      } else {
        var i :| 0 <= i <= 3 && d == RecordDir(b)[..i];
        PrefixOk(RecordDir(b), i, s');
      }
    }
  }

  lemma EndUploadDirs(h: Hashes, dirs: set<Path>, s: Store, b: string, id: string)
    requires DirsOk(dirs, s) && ValidBucketName(b)
    ensures DirsOk((set d | d in dirs && !Under(UploadDir(h, b, id), d)), s)
  {
    ValidNameIsSegment(b);
    assert forall c: string :: |["data", c]| < |UploadDir(h, b, id)|;
  }

  lemma DropBucketDirs(dirs: set<Path>, s: Store, b: string)
    requires DirsOk(dirs, s) && ValidBucketName(b) && forall c :: c in s ==> ValidBucketName(c)
    ensures DirsOk(DeletionDirs(dirs, b), s - {b})
  {
    ValidNameIsSegment(b);
    forall d | d in DeletionDirs(dirs, b)
      ensures DirOk(d, s - {b})
    {
      StartsUnder(b, d);
    }
  }

  lemma StartsUnder(b: string, d: Path)
    ensures |d| >= 2 && d[0] == "data" && d[1] == b ==> Under(["data", b], d)
  {
  }

  /** The disk stands for the store: its files hold the store, and its directories fit. */
  ghost predicate Stands(h: Hashes, used: set<string>, t: Tree, dirs: set<Path>, s: Store)
  {
    Represents(h, used, t, s) && DirsOk(dirs, s)
  }

  // ----- request by request -----

  lemma CreateBucketStands(h: Hashes, used: set<string>, t: Tree, dirs: set<Path>, s: Store, b: string, now: int)
    requires Stands(h, used, t, dirs, s) && ValidBucketName(b) && b !in s
    ensures Stands(h, used, t[RecordPath(b) := Json(BucketDoc(b, now, REGION))],
                   dirs + Ancestors(BucketPath(b)) + Ancestors(RecordDir(b)), s[b := Bucket(now, map[], map[], map[])])
  {
    CreateBucketRepresents(h, used, t, s, b, now);
    CreateBucketDirs(dirs, s, b, Bucket(now, map[], map[], map[]));
  }

  lemma BucketIsValid(h: Hashes, used: set<string>, s: Store, b: string)
    requires SoundStore(h, used, s) && b in s
    ensures ValidBucketName(b)
  {
  }

  /** Even a put that fails may leave the bucket's directory of data. */
  lemma ObjectsDirStands(h: Hashes, used: set<string>, t: Tree, dirs: set<Path>, s: Store, b: string)
    requires Stands(h, used, t, dirs, s) && b in s
    ensures Stands(h, used, t, dirs + Ancestors(ObjectsDir(b)), s)
  {
    BucketIsValid(h, used, s, b);
    ObjectDirsOk(s, b);
    MakeDir(dirs, s, ObjectsDir(b));
  }

  lemma PutStands(h: Hashes, used: set<string>, t: Tree, dirs: set<Path>, s: Store, b: string, k: string, o: Object)
    requires Stands(h, used, t, dirs, s) && b in s && k in used && SoundObject(k, o)
    ensures Stands(h, used, PutTree(h, t, b, k, o), dirs + Ancestors(ObjectsDir(b)) + Ancestors(MetadataDir(b)),
            WithObject(s, b, k, o))
  {
    BucketIsValid(h, used, s, b);
    ObjectDirsOk(s, b);
    MakeDir(dirs, s, ObjectsDir(b));
    MakeDir(dirs + Ancestors(ObjectsDir(b)), s, MetadataDir(b));
    PutRepresents(h, used, t, s, b, k, o);
    SameBucketsSameDirs(dirs + Ancestors(ObjectsDir(b)) + Ancestors(MetadataDir(b)), s, WithObject(s, b, k, o));
  }

  lemma DeleteStands(h: Hashes, used: set<string>, t: Tree, dirs: set<Path>, s: Store, b: string, k: string)
    requires Stands(h, used, t, dirs, s) && b in s && k in used
    ensures Stands(h, used, DeleteTree(h, t, b, k), dirs, WithoutObject(s, b, k))
  {
    DeleteRepresents(h, used, t, s, b, k);
    SameBucketsSameDirs(dirs, s, WithoutObject(s, b, k));
  }

  lemma StartStands(h: Hashes, used: set<string>, t: Tree, dirs: set<Path>, s: Store, b: string, state: UploadState)
    requires Stands(h, used, t, dirs, s) && b in s && state.uploadId in used && state.uploadId !in s[b].uploads
    ensures var id := state.uploadId;
            Stands(h, used, t[UploadPath(UploadDir(h, b, id)) := Json(UploadDoc(state))],
                   dirs + Ancestors(UploadDir(h, b, id)), WithUpload(s, b, id, Upload(state, map[], map[])))
  {
    var id := state.uploadId;
    BucketIsValid(h, used, s, b);
    UploadDirOk(h, s, b, id);
    MakeDir(dirs, s, UploadDir(h, b, id));
    StartRepresents(h, used, t, s, b, state);
    SameBucketsSameDirs(dirs + Ancestors(UploadDir(h, b, id)), s, WithUpload(s, b, id, Upload(state, map[], map[])));
  }

  lemma PartStands(h: Hashes, used: set<string>, t: Tree, dirs: set<Path>, s: Store, b: string, id: string, part: Part)
    requires Stands(h, used, t, dirs, s) && b in s && id in used && id in s[b].uploads
    requires part.info.partNumber >= 0 && SoundPart(h, part.info.partNumber, part)
    ensures Stands(h, used, PartTree(t, UploadDir(h, b, id), part), dirs,
            WithPart(s, b, id, part.info.partNumber, part))
  {
    PartRepresents(h, used, t, s, b, id, part);
    SameBucketsSameDirs(dirs, s, WithPart(s, b, id, part.info.partNumber, part));
  }

  lemma EndStands(h: Hashes, used: set<string>, t: Tree, dirs: set<Path>, s: Store, b: string, id: string)
    requires Stands(h, used, t, dirs, s) && b in s && id in used
    ensures Stands(h, used, Without(t, UploadDir(h, b, id)), (set d | d in dirs && !Under(UploadDir(h, b, id), d)),
            WithoutUpload(s, b, id))
  {
    BucketIsValid(h, used, s, b);
    EndRepresents(h, used, t, s, b, id);
    EndUploadDirs(h, dirs, s, b, id);
    SameBucketsSameDirs((set d | d in dirs && !Under(UploadDir(h, b, id), d)), s, WithoutUpload(s, b, id));
  }

  // ----- deleting buckets -----

  /** A bucket's directory of data has an entry exactly when the bucket has an object or a stray. */
  lemma ChildIsObject(h: Hashes, used: set<string>, fs: FS, s: Store, b: string)
    requires Sound(fs) && Stands(h, used, View(fs), fs.dirs, s) && b in s
    ensures HasChild(fs, ObjectsDir(b)) <==> s[b].objects != map[] || s[b].strays != map[]
  {
    if HasChild(fs, ObjectsDir(b)) {
      ChildIsKnown(h, used, fs, s, b);
    }
    if x :| x in s[b].strays {
      StrayIsChild(h, used, fs, s, b, x);
    }
    if k :| k in s[b].objects {
      ObjectIsChild(h, used, fs, s, b, k);
    }
  }

  lemma StrayIsChild(h: Hashes, used: set<string>, fs: FS, s: Store, b: string, x: string)
    requires Sound(fs) && Stands(h, used, View(fs), fs.dirs, s) && b in s && x in s[b].strays
    ensures HasChild(fs, ObjectsDir(b))
  {
    BucketIsValid(h, used, s, b);
    FileHolds(h, used, View(fs), s, ObjectStray(b, x));
    NameIsChild(fs, ObjectsDir(b), ".tmp-" + x);
  }

  lemma NameIsChild(fs: FS, dir: Path, name: string)
    requires dir + [name] in fs.names
    ensures HasChild(fs, dir)
  {
  }

  lemma ObjectIsChild(h: Hashes, used: set<string>, fs: FS, s: Store, b: string, k: string)
    requires Sound(fs) && Stands(h, used, View(fs), fs.dirs, s) && b in s && k in s[b].objects
    ensures HasChild(fs, ObjectsDir(b))
  {
    assert SoundBucket(h, used, s[b]);
    FileHolds(h, used, View(fs), s, ObjectData(b, k));
    NameIsChild(fs, ObjectsDir(b), ObjectFileName(h, k));
  }

  lemma ChildIsKnown(h: Hashes, used: set<string>, fs: FS, s: Store, b: string)
    requires Sound(fs) && Stands(h, used, View(fs), fs.dirs, s) && b in s && HasChild(fs, ObjectsDir(b))
    ensures s[b].objects != map[] || s[b].strays != map[]
  {
    BucketIsValid(h, used, s, b);
    var name :| ObjectsDir(b) + [name] in fs.names || ObjectsDir(b) + [name] in fs.dirs;
    NoDirectoryInside(fs.dirs, s, b, name);
    FileInside(h, used, View(fs), s, b, name);
  }

  lemma NoDirectoryInside(dirs: set<Path>, s: Store, b: string, name: string)
    requires DirsOk(dirs, s) && ValidBucketName(b)
    ensures ObjectsDir(b) + [name] !in dirs
  {
    ValidNameIsSegment(b);
    var p := ObjectsDir(b) + [name];
    assert |p| == 4 && p[1] == b && p[2] == ".objects";
  }

  lemma FileInside(h: Hashes, used: set<string>, t: Tree, s: Store, b: string, name: string)
    requires Represents(h, used, t, s) && b in s && ValidBucketName(b) && ObjectsDir(b) + [name] in t
    ensures s[b].objects != map[] || s[b].strays != map[]
  {
    var f := WhichFile(h, used, t, s, ObjectsDir(b) + [name]);
    ObjectOf(h, used, f, b, name);
    assert if f.ObjectData? then f.key in s[b].objects else f.suffix in s[b].strays;
  }

  /** One-segment names whose path is a directory of the backend's own, or above them: no bucket can have them. */
  predicate Reserved(name: string)
  {
    name == "" || name == "." || name == ".." || name == "bucket_metadata"
  }

  /** The backend's deletion does what the store's clients expect: the outcome and the new tree and directories are
      those of the store with the bucket removed. */
  ghost predicate DeletesAsExpected(h: Hashes, used: set<string>, fs: FS, s: Store, name: string)
    requires Sound(fs)
  {
    var (s', outcome) := RemovingBucket(s, name);
    && (match DeletionResult(fs, name)
        case Ok(_) =>
          && outcome == Done
          && Stands(h, used, DropBucketTree(View(fs), name), DeletionDirs(fs.dirs, name), s')
        case Err(e) => outcome == Failed(e) && s' == s)
  }

  /** No file lies higher than in a directory below a bucket's or a record's. */
  lemma FilesAreDeep(h: Hashes, used: set<string>, fs: FS, s: Store, p: Path)
    requires Sound(fs) && Represents(h, used, View(fs), s)
    ensures p in fs.names ==> |p| >= 4
  {
    if p in fs.names {
      assert p in View(fs);
      var f := WhichFile(h, used, View(fs), s, p);
      Location(h, f);
    }
  }

  /** So what is there at a short path shows in the directories. */
  lemma ShortPaths(h: Hashes, used: set<string>, fs: FS, s: Store, p: Path)
    requires Sound(fs) && Represents(h, used, View(fs), s) && |p| <= 3
    ensures KindOf(fs, p) == if p in fs.dirs then Directory else Missing
  {
    forall i | 0 <= i <= |p|
      ensures p[..i] !in fs.names
    {
      FilesAreDeep(h, used, fs, s, p[..i]);
    }
    assert p[..|p|] == p;
  }

  /** The backend does not look at the name itself. Called directly, its deletion does what clients expect exactly if
      the name is valid or nothing at all is where it leads. */
  lemma DeletesAsExpectedIff(h: Hashes, used: set<string>, fs: FS, s: Store, name: string)
    requires Sound(fs) && Stands(h, used, View(fs), fs.dirs, s)
    ensures DeletesAsExpected(h, used, fs, s, name) <==>
            ValidBucketName(name) || KindOf(fs, BucketPath(name)) == Missing
  {
    if ValidBucketName(name) {
      ValidNameIsSegment(name);
      ShortPaths(h, used, fs, s, BucketPath(name));
      if name in s {
        BucketIsDeleted(h, used, fs, s, name);
      }
    }
  }

  /** A name that leads to a file, or through one, is refused with an error of the system's own. */
  lemma FilesAreNoBuckets(fs: FS, name: string, i: nat)
    requires i <= |BucketPath(name)| && BucketPath(name)[..i] in fs.names
    ensures DeletionResult(fs, name) == Err(NotADirectory)
  {
    var p, inside := BucketPath(name), ObjectsDir(name);
    assert inside[..i] == p[..i];
    assert BehindFile(fs, inside);
    assert p[..|p|] == p;
  }

  /** Among names without a slash, the invalid ones that lead anywhere are the reserved ones; the handler, the only
      caller, rejects all of them. */
  lemma SegmentsThatLead(h: Hashes, used: set<string>, fs: FS, s: Store, name: string)
    requires Sound(fs) && Stands(h, used, View(fs), fs.dirs, s) && IsSegment(name) && !ValidBucketName(name)
    ensures KindOf(fs, BucketPath(name)) != Missing <==> Reserved(name) && BucketPath(name) in fs.dirs
  {
    ShortPaths(h, used, fs, s, BucketPath(name));
    JoinSegment(BASE_PATH, name);
    if name in s {
      BucketIsValid(h, used, s, name);
    }
  }

  lemma BucketIsDeleted(h: Hashes, used: set<string>, fs: FS, s: Store, b: string)
    requires Sound(fs) && Stands(h, used, View(fs), fs.dirs, s) && b in s
    ensures DeletesAsExpected(h, used, fs, s, b)
  {
    ValidNameIsSegment(b);
    ShortPaths(h, used, fs, s, BucketPath(b));
    ShortPaths(h, used, fs, s, ObjectsDir(b));
    ChildIsObject(h, used, fs, s, b);
    DropBucketRepresents(h, used, View(fs), s, b);
    DropBucketDirs(fs.dirs, s, b);
  }

  /** Deleting an existing bucket succeeds exactly when it has no objects and no temporary file of a put was left there;
      its unfinished uploads do not matter. */
  lemma ExistingBucketIsDeletedIffEmpty(h: Hashes, used: set<string>, fs: FS, s: Store, b: string)
    requires Sound(fs) && Stands(h, used, View(fs), fs.dirs, s) && b in s
    ensures DeletionResult(fs, b).Ok? <==> s[b].objects == map[] && s[b].strays == map[]
    ensures DeletionResult(fs, b).Err? ==> DeletionResult(fs, b) == Err(BucketNotEmpty)
  {
    ValidNameIsSegment(b);
    ShortPaths(h, used, fs, s, BucketPath(b));
    ShortPaths(h, used, fs, s, ObjectsDir(b));
    ChildIsObject(h, used, fs, s, b);
  }

  /** The data directories of reserved names: nothing is ever there. */
  lemma ReservedPaths(name: string)
    requires Reserved(name)
    ensures ObjectsDir(name) == if name == ".." then [".objects"]
                                else if name == "bucket_metadata" then ["data", "bucket_metadata", ".objects"]
                                else ["data", ".objects"]
    ensures BucketPath(name) ==
            if name == ".." then [] else if name == "bucket_metadata" then ["data", name] else ["data"]
  {
    ReservedIsSegment(name);
    JoinSegment(BASE_PATH, name);
    EnterReserved(name);
  }

  lemma EnterReserved(name: string)
    requires Reserved(name)
    ensures Enter(["data"], name) ==
            if name == ".." then [] else if name == "bucket_metadata" then ["data", name] else ["data"]
  {
    assert |"bucket_metadata"| > |".."|;
  }

  lemma ReservedIsSegment(name: string)
    requires Reserved(name)
    ensures IsSegment(name)
  {
  }

  lemma NothingThere(h: Hashes, used: set<string>, fs: FS, s: Store, name: string, child: string)
    requires Sound(fs) && Stands(h, used, View(fs), fs.dirs, s) && Reserved(name)
    ensures ObjectsDir(name) + [child] !in fs.names && ObjectsDir(name) + [child] !in fs.dirs
  {
    var dir := ObjectsDir(name);
    assert OutsideBuckets(dir) by {
      ReservedPaths(name);
    }
    NothingOutside(h, used, fs, s, dir, dir + [child]);
  }

  /** Directories in which no bucket has anything. */
  predicate OutsideBuckets(d: Path)
  {
    || (|d| == 1 && d[0] == ".objects")
    || (|d| == 2 && d[1] == ".objects")
    || (|d| == 3 && d[1] == "bucket_metadata" && d[2] == ".objects")
  }

  lemma NothingOutside(h: Hashes, used: set<string>, fs: FS, s: Store, d: Path, p: Path)
    requires Sound(fs) && Stands(h, used, View(fs), fs.dirs, s) && OutsideBuckets(d)
    requires |p| == |d| + 1 && p[..|d|] == d
    ensures p !in fs.names && p !in fs.dirs
  {
    assert forall i :: 0 <= i < |d| ==> p[i] == d[i];
    NotABucket(h, used, s, ".objects");
    NotABucket(h, used, s, "bucket_metadata");
    if p in View(fs) {
      var f := WhichFile(h, used, View(fs), s, p);
      Location(h, f);
      ValidNamesAreSafe(f.bucket);
    }
  }

  lemma NotABucket(h: Hashes, used: set<string>, s: Store, name: string)
    requires SoundStore(h, used, s) && (name == ".objects" || name == "bucket_metadata")
    ensures name !in s
  {
    if name in s {
      ValidNamesAreSafe(name);
    }
  }

  /** What goes wrong then: deleting reports success, and every bucket is gone, although nobody deleted it. */
  lemma ReservedNameDropsBuckets(h: Hashes, used: set<string>, fs: FS, s: Store, name: string, b: string)
    requires Sound(fs) && Stands(h, used, View(fs), fs.dirs, s)
    requires Reserved(name) && BucketPath(name) in fs.dirs && b in s
    ensures DeletionResult(fs, name) == Ok(())
    ensures HasBucket(View(fs), b) && !HasBucket(DropBucketTree(View(fs), name), b)
  {
    ReservedIsDeleted(h, used, fs, s, name);
    BucketIsValid(h, used, s, b);
    ValidNamesAreSafe(b);
    BucketIsFound(h, used, View(fs), s, b);
    RecordGoes(name, b);
  }

  lemma ReservedIsDeleted(h: Hashes, used: set<string>, fs: FS, s: Store, name: string)
    requires Sound(fs) && Stands(h, used, View(fs), fs.dirs, s)
    requires Reserved(name) && BucketPath(name) in fs.dirs
    ensures DeletionResult(fs, name) == Ok(())
  {
    var dir, inside := BucketPath(name), ObjectsDir(name);
    assert |dir| <= 3 && |inside| <= 3 by {
      ReservedPaths(name);
    }
    NoChildren(h, used, fs, s, name);
    ShortPaths(h, used, fs, s, dir);
    ShortPaths(h, used, fs, s, inside);
  }

  lemma NoChildren(h: Hashes, used: set<string>, fs: FS, s: Store, name: string)
    requires Sound(fs) && Stands(h, used, View(fs), fs.dirs, s) && Reserved(name)
    ensures !HasChild(fs, ObjectsDir(name))
  {
    forall child
      ensures ObjectsDir(name) + [child] !in fs.names && ObjectsDir(name) + [child] !in fs.dirs
    {
      NothingThere(h, used, fs, s, name, child);
    }
  }

  lemma RecordGoes(name: string, b: string)
    requires Reserved(name) && ValidBucketName(b)
    ensures Under(BucketPath(name), RecordPath(b))
  {
    var dir, p := BucketPath(name), RecordPath(b);
    assert |p| >= 2 && p[0] == "data" && p[1] == "bucket_metadata" by {
      ValidNameIsSegment(b);
    }
    assert dir == [] || dir == ["data"] || dir == ["data", "bucket_metadata"] by {
      ReservedPaths(name);
    }
    AboveRecords(p);
  }

  lemma AboveRecords(p: Path)
    requires |p| >= 2 && p[0] == "data" && p[1] == "bucket_metadata"
    ensures Under([], p) && Under(["data"], p) && Under(["data", "bucket_metadata"], p)
  {
  }

  lemma JoinTwo(dir: Path, a: string, b: string)
    requires IsSegment(a) && IsSegment(b)
    ensures Join(dir, a + "/" + b) == Enter(Enter(dir, a), b)
  {
    FirstSegment(a, b);
  }

  lemma SlashedPaths(b: string)
    requires ValidBucketName(b)
    ensures var name := "bucket_metadata" + "/" + b;
            && BucketPath(name) == ["data", "bucket_metadata", b]
            && ObjectsDir(name) == ["data", "bucket_metadata", b, ".objects"]
            && RecordPath(b) == ["data", "bucket_metadata", b, ".bucket.json"]
  {
    var name := "bucket_metadata" + "/" + b;
    ValidNameIsSegment(b);
    ValidNamesAreSafe(b);
    JoinTwo(BASE_PATH, "bucket_metadata", b);
  }

  /** Other names that lead somewhere have a slash: this one deletes the directory of a bucket's record. */
  lemma PathDropsRecord(h: Hashes, used: set<string>, fs: FS, s: Store, b: string)
    requires Sound(fs) && Stands(h, used, View(fs), fs.dirs, s) && b in s
    ensures var name := "bucket_metadata" + "/" + b;
            && DeletionResult(fs, name) == Ok(())
            && HasBucket(View(fs), b) && !HasBucket(DropBucketTree(View(fs), name), b)
  {
    var name, dir := "bucket_metadata" + "/" + b, ["data", "bucket_metadata", b];
    BucketIsValid(h, used, s, b);
    ValidNamesAreSafe(b);
    SlashedPaths(b);
    BucketIsFound(h, used, View(fs), s, b);
    RecordDirExists(fs, b, dir);
    PathIsDeleted(h, used, fs, s, b, name, dir);
    DropsUnder(View(fs), name, RecordPath(b));
  }

  lemma PathIsDeleted(h: Hashes, used: set<string>, fs: FS, s: Store, b: string, name: string, dir: Path)
    requires Sound(fs) && Stands(h, used, View(fs), fs.dirs, s) && b in s
    requires dir == ["data", "bucket_metadata", b] && dir in fs.dirs
    requires BucketPath(name) == dir && ObjectsDir(name) == ["data", "bucket_metadata", b, ".objects"]
    ensures DeletionResult(fs, name) == Ok(())
  {
    ShortPaths(h, used, fs, s, dir);
    NothingBeside(h, used, fs, s, b);
    EmptyIsDeleted(fs, name, dir, ["data", "bucket_metadata", b, ".objects"]);
  }

  lemma RecordDirExists(fs: FS, b: string, dir: Path)
    requires Sound(fs) && HasBucket(View(fs), b) && RecordPath(b) == dir + [".bucket.json"]
    ensures dir in fs.dirs && Under(dir, RecordPath(b))
  {
    assert SoundName(fs, RecordPath(b)) && Parent(RecordPath(b)) == dir;
  }

  lemma EmptyIsDeleted(fs: FS, name: string, dir: Path, inside: Path)
    requires BucketPath(name) == dir && ObjectsDir(name) == inside
    requires KindOf(fs, dir) == Directory && KindOf(fs, inside) == Missing && !HasChild(fs, inside)
    ensures DeletionResult(fs, name) == Ok(())
  {
  }

  lemma DropsUnder(t: Tree, name: string, p: Path)
    requires Under(BucketPath(name), p)
    ensures p !in DropBucketTree(t, name)
  {
  }

  lemma NothingBeside(h: Hashes, used: set<string>, fs: FS, s: Store, b: string)
    requires Sound(fs) && Stands(h, used, View(fs), fs.dirs, s) && b in s
    ensures var inside := ["data", "bucket_metadata", b, ".objects"];
            KindOf(fs, inside) == Missing && !HasChild(fs, inside)
  {
    var inside := ["data", "bucket_metadata", b, ".objects"];
    BesideRecord(h, used, fs, s, inside);
    forall child
      ensures inside + [child] !in fs.names && inside + [child] !in fs.dirs
    {
      BesideRecord(h, used, fs, s, inside + [child]);
    }
    forall i | 0 <= i < 4
      ensures inside[..i] !in fs.names
    {
      FilesAreDeep(h, used, fs, s, inside[..i]);
    }
  }

  lemma BesideRecord(h: Hashes, used: set<string>, fs: FS, s: Store, p: Path)
    requires Sound(fs) && Stands(h, used, View(fs), fs.dirs, s)
    requires |p| >= 4 && p[1] == "bucket_metadata" && p[3] == ".objects"
    ensures p !in fs.names && p !in fs.dirs
  {
    NotABucket(h, used, s, "bucket_metadata");
    if p in View(fs) {
      var f := WhichFile(h, used, View(fs), s, p);
      Location(h, f);
    }
  }
}
