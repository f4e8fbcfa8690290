/** The server as its clients see it: whatever sequence of requests it carries out, results, errors and stored data are
    those of the store of buckets, objects and uploads. */
module Service {
  import opened Types
  import opened Encoding
  import opened BucketNames
  import opened Layout
  import opened FileSystem
  import opened Listing
  import opened ObjectStore
  import opened Assembly
  import opened Trees
  import opened Backend
  import opened Multipart
  import opened Tokens
  import opened Pages
  import opened Handlers
  import opened Refinement
  import opened Preservation
  import opened Directories
  import opened Runs
  import opened Histories

  /** What is taken for granted of a request: the path it came by names its bucket in one segment, its keys and upload
      IDs are among those whose digests do not collide, and a new upload ID is new.  Names of buckets to create or
      delete may be anything. */
  predicate Admissible(used: set<string>, s: Store, op: Op)
  {
    match op
    case CreateBucket(_, _) => true
    case DeleteBucket(_) => true
    case PutObject(b, k, _, _, _) => IsSegment(b) && k in used
    case GetObject(b, k) => IsSegment(b) && k in used
    case HeadObject(b, k) => IsSegment(b) && k in used
    case DeleteObject(b, k) => IsSegment(b) && k in used
    case DeleteObjects(b, keys) => IsSegment(b) && forall i :: 0 <= i < |keys| ==> keys[i] in used
    case CopyObject(b, k, b', k', _) => IsSegment(b) && IsSegment(b') && k in used && k' in used
    case RenameObject(b, k, b', k', _) => IsSegment(b) && IsSegment(b') && k in used && k' in used
    case ListObjects(b, _) => IsSegment(b)
    case CreateUpload(b, _, _, _, id) => IsSegment(b) && id in used && (b in s ==> id !in s[b].uploads)
    case UploadPart(b, _, id, _, _, _) => IsSegment(b) && id in used
    case ListParts(b, _, id) => IsSegment(b) && id in used
    case CompleteUpload(b, k, id, _, _) => IsSegment(b) && k in used && id in used
    case AbortUpload(b, _, id) => IsSegment(b) && id in used
  }

  /** The names its temporary files come out with are not those of files left over: they are created exclusively. */
  predicate NamesAreFree(s: Store, op: Op, suffix: string, combinedSuffix: string)
  {
    match op
    case PutObject(b, _, _, _, _) => FreeSuffix(s, b, suffix)
    case CopyObject(_, _, b, _, _) => FreeSuffix(s, b, suffix)
    case RenameObject(_, _, b, _, _) => FreeSuffix(s, b, suffix)
    case UploadPart(b, _, id, _, _, _) => FreeName(s, b, id, "part-" + suffix)
    case CompleteUpload(b, _, id, _, _) => FreeName(s, b, id, "combined-" + combinedSuffix) && FreeSuffix(s, b, suffix)
    case _ => true
  }

  ghost predicate AdmissibleRun(h: Hashes, used: set<string>, s: Store, ops: seq<Op>, suffixes: seq<(string, string)>)
    requires |suffixes| == |ops|
  {
    forall i :: 0 <= i < |ops| ==>
      var before := AfterRun(h, s, ops[..i]).0;
      Admissible(used, before, ops[i]) && NamesAreFree(before, ops[i], suffixes[i].0, suffixes[i].1)
  }

  class Service {
    const disk: Disk
    const h: Hashes
    const backend: FSBackend
    const multipart: MultipartBackend
    const handler: Handler
    /** The keys and upload IDs in use. */
    ghost const used: set<string>
    /** The store the disk stands for. */
    ghost var store: Store

    ghost predicate Valid()
      reads this, disk
    {
      && backend.disk == disk && backend.h == h && backend.Valid()
      && multipart.backend == backend && multipart.disk == disk && multipart.h == h
      && handler.backend == backend && handler.disk == disk && handler.h == h
      && Stands(h, used, disk.Tree(), disk.fs.dirs, store)
    }

    /** A server on a disk where nothing is stored yet. */
    constructor Fresh(h: Hashes, ghost used: set<string>)
      requires Collisionless(h, used)
      ensures Valid() && fresh(disk) && this.h == h && this.used == used && store == map[]
    {
      var d := new Disk();
      var b := new FSBackend(d, h);
      disk, backend, this.h, this.used, store := d, b, h, used, map[];
      multipart := new MultipartBackend(b);
      handler := new Handler(b);
    }

    /** A server on a data directory that an earlier one left between requests. */
    constructor (disk: Disk, h: Hashes, ghost used: set<string>, ghost store: Store)
      requires disk.Valid() && Stands(h, used, disk.Tree(), disk.fs.dirs, store)
      modifies disk
      ensures Valid() && this.disk == disk && this.h == h && this.used == used && this.store == store
      ensures disk.Tree() == old(disk.Tree())
    {
      BaseStands(h, used, disk.Tree(), disk.fs.dirs, store);
      var b := new FSBackend(disk, h);
      this.disk, backend, this.h, this.used, this.store := disk, b, h, used, store;
      multipart := new MultipartBackend(b);
      handler := new Handler(b);
    }

    method CreateBucket(bucket: string, now: int) returns (outcome: Outcome)
      requires Valid()
      modifies this, disk
      ensures Valid() && (store, outcome) == CreatingBucket(old(store), bucket, now)
    {
      if ValidBucketName(bucket) {
        ValidNamesAreSafe(bucket);
        BucketIsFound(h, used, disk.Tree(), store, bucket);
      }
      var r := handler.CreateBucket(bucket, now);
      if r.Err? {
        return Failed(r.error);
      }
      CreateBucketStands(h, used, old(disk.Tree()), old(disk.fs.dirs), store, bucket, now);
      store := store[bucket := Bucket(now, map[], map[], map[])];
      return Done;
    }

    method DeleteBucket(bucket: string) returns (outcome: Outcome)
      requires Valid()
      modifies this, disk
      ensures Valid() && (store, outcome) == DeletingBucket(old(store), bucket)
    {
      DeletesAsExpectedIff(h, used, disk.fs, store, bucket);
      var r := handler.DeleteBucket(bucket);
      if r.Err? {
        return Failed(r.error);
      }
      store := store - {bucket};
      return Done;
    }

    method PutObject(bucket: string, key: string, body: Body, meta: ObjectMeta, now: int, suffix: string)
      returns (outcome: Outcome)
      requires Valid() && IsSegment(bucket) && key in used
      requires FreeSuffix(store, bucket, suffix)
      modifies this, disk
      ensures Valid() && (store, outcome) == Putting(h, old(store), bucket, key, body, meta, now)
      ensures outcome == Done <==> bucket in old(store) && !body.fails
      ensures outcome == Done ==>
                var o, data := FindObject(store, bucket, key), Concat(body.chunks);
                && o.Ok? && o.value.data == data
                && IsPlain(h, o.value.meta, key, data, meta.contentType, meta.userMetadata, now)
    {
      BucketIsFound(h, used, disk.Tree(), store, bucket);
      TemporaryIsFree(h, used, disk.Tree(), store, bucket, suffix);
      var r := backend.PutObject(bucket, key, body, meta, now, suffix);
      if r.Err? {
        if bucket in store {
          ObjectsDirStands(h, used, old(disk.Tree()), old(disk.fs.dirs), store, bucket);
        }
        return Failed(r.error);
      }
      PutIsStored(h, store, bucket, key, body, meta, now);
      ghost var o := ObjectFrom(h, key, body, meta, now);
      PutStands(h, used, old(disk.Tree()), old(disk.fs.dirs), store, bucket, key, o);
      store := WithObject(store, bucket, key, o);
      return Done;
    }

    method GetObject(bucket: string, key: string) returns (outcome: Outcome)
      requires Valid() && IsSegment(bucket) && key in used
      ensures (store, outcome) == Getting(store, bucket, key)
      ensures match FindObject(store, bucket, key)
              case Ok(o) => outcome == Fetched(o.data, o.meta)
              case Err(e) => outcome == Failed(e)
    {
      ObjectsAreFound(h, used, disk.Tree(), store, bucket, key);
      var r := backend.GetObject(bucket, key);
      if r.Err? {
        return Failed(r.error);
      }
      var (reader, meta) := r.value;
      var data := disk.ReadAll(reader);
      return Fetched(data, meta);
    }

    method HeadObject(bucket: string, key: string) returns (outcome: Outcome)
      requires Valid() && IsSegment(bucket) && key in used
      ensures (store, outcome) == Heading(store, bucket, key)
    {
      ObjectsAreFound(h, used, disk.Tree(), store, bucket, key);
      var r := backend.HeadObject(bucket, key);
      return if r.Err? then Failed(r.error) else Outcome.Described(r.value);
    }

    method DeleteObject(bucket: string, key: string) returns (outcome: Outcome)
      requires Valid() && IsSegment(bucket) && key in used
      modifies this, disk
      ensures Valid() && (store, outcome) == Deleting(old(store), bucket, key)
    {
      BucketIsFound(h, used, disk.Tree(), store, bucket);
      var r := backend.DeleteObject(bucket, key);
      if r.Err? {
        return Failed(r.error);
      }
      DeleteStands(h, used, old(disk.Tree()), old(disk.fs.dirs), store, bucket, key);
      store := WithoutObject(store, bucket, key);
      return Done;
    }

    method DeleteObjects(bucket: string, keys: seq<string>) returns (outcome: Outcome)
      requires Valid() && IsSegment(bucket) && forall i :: 0 <= i < |keys| ==> keys[i] in used
      modifies this, disk
      ensures Valid() && (store, outcome) == DeletingAll(old(store), bucket, keys)
    {
      BucketIsFound(h, used, disk.Tree(), store, bucket);
      var r := handler.DeleteObjects(bucket, keys, false);
      if r.Err? {
        return Failed(r.error);
      }
      DeleteAllStands(h, used, old(disk.Tree()), old(disk.fs.dirs), store, bucket, keys);
      store := WithoutObjects(store, bucket, keys);
      return Done;
    }

    method CopyObject(bucket: string, key: string, dstBucket: string, dstKey: string, now: int, suffix: string)
      returns (outcome: Outcome)
      requires Valid() && IsSegment(bucket) && IsSegment(dstBucket) && key in used && dstKey in used
      requires FreeSuffix(store, dstBucket, suffix)
      modifies this, disk
      ensures Valid() && (store, outcome) == Copying(h, old(store), bucket, key, dstBucket, dstKey, now)
    {
      ObjectsAreFound(h, used, disk.Tree(), store, bucket, key);
      BucketIsFound(h, used, disk.Tree(), store, dstBucket);
      TemporaryIsFree(h, used, disk.Tree(), store, dstBucket, suffix);
      var r := backend.CopyObject(bucket, key, dstBucket, dstKey, now, suffix);
      if r.Err? {
        return Failed(r.error);
      }
      ghost var o := CopyOf(h, store[bucket].objects[key], dstKey, now);
      PutStands(h, used, old(disk.Tree()), old(disk.fs.dirs), store, dstBucket, dstKey, o);
      store := WithObject(store, dstBucket, dstKey, o);
      return Outcome.Described(r.value);
    }

    method RenameObject(bucket: string, key: string, dstBucket: string, dstKey: string, now: int, suffix: string)
      returns (outcome: Outcome)
      requires Valid() && IsSegment(bucket) && IsSegment(dstBucket) && key in used && dstKey in used
      requires FreeSuffix(store, dstBucket, suffix)
      modifies this, disk
      ensures Valid() && (store, outcome) == Renaming(h, old(store), bucket, key, dstBucket, dstKey, now)
    {
      ObjectsAreFound(h, used, disk.Tree(), store, bucket, key);
      BucketIsFound(h, used, disk.Tree(), store, dstBucket);
      TemporaryIsFree(h, used, disk.Tree(), store, dstBucket, suffix);
      var r := backend.RenameObject(bucket, key, dstBucket, dstKey, now, suffix);
      if r.Err? {
        return Failed(r.error);
      }
      if bucket != dstBucket || key != dstKey {
        RenameStands(h, used, old(disk.Tree()), old(disk.fs.dirs), store, bucket, key, dstBucket, dstKey, now);
        ghost var o := CopyOf(h, store[bucket].objects[key], dstKey, now);
        store := WithoutObject(WithObject(store, dstBucket, dstKey, o), bucket, key);
      }
      return Outcome.Described(r.value);
    }

    method ListObjects(bucket: string, options: ListOptions) returns (outcome: Outcome)
      requires Valid() && IsSegment(bucket)
      ensures (store, outcome) == ListingObjects(store, bucket, options)
      ensures bucket in store ==>
                outcome.Listed? &&
                ShowsPage(Metas(store[bucket].objects), options.prefix, options.delimiter, options.marker,
                          if options.maxKeys <= 0 then 1000 else options.maxKeys, outcome.listing)
    {
      BucketIsFound(h, used, disk.Tree(), store, bucket);
      if bucket in store {
        ListingIsEnumeration(h, used, disk.Tree(), store, bucket, options.prefix);
      }
      var r := backend.ListObjects(bucket, options);
      if bucket in store {
        ShowsStored(h, used, disk.Tree(), store, bucket, options, r.value);
      }
      return if r.Err? then Failed(r.error) else Listed(r.value);
    }

    /** Keys are byte strings, as all strings of the server are. */
    method ListObjectsV2(bucket: string, q: Query) returns (r: Result<Response>)
      requires Valid() && IsSegment(bucket) && forall k :: k in used ==> IsByteString(k)
      ensures MarkerOf(q).Err? ==> r == Err(MarkerOf(q).error)
      ensures MarkerOf(q).Ok? && bucket !in store ==> r == Err(BucketNotFound)
      ensures MarkerOf(q).Ok? && bucket in store ==>
                r.Ok? && Answers(r.value, q) && AnswersQuery(Metas(store[bucket].objects), q, r.value.listing) &&
                r.value.listing == Page(Enumeration(store[bucket].objects, q.prefix), OptionsOf(q, MarkerOf(q).value))
    {
      BucketIsFound(h, used, disk.Tree(), store, bucket);
      if bucket in store {
        ListingIsEnumeration(h, used, disk.Tree(), store, bucket, q.prefix);
        DescribedKeysAreBytes(h, used, disk.Tree(), store, bucket);
      }
      r := handler.ListObjectsV2(bucket, q);
      if MarkerOf(q).Ok? && bucket in store {
        AnswersStored(h, used, disk.Tree(), store, bucket, q, r.value.listing);
      }
    }

    method CreateUpload(bucket: string, key: string, meta: ObjectMeta, now: int, id: string) returns (outcome: Outcome)
      requires Valid() && IsSegment(bucket) && id in used && (bucket in store ==> id !in store[bucket].uploads)
      modifies this, disk
      ensures Valid() && (store, outcome) == Starting(old(store), bucket, key, meta, now, id)
    {
      BucketIsFound(h, used, disk.Tree(), store, bucket);
      var r := multipart.CreateMultipartUpload(bucket, key, meta, now, id);
      if r.Err? {
        return Failed(r.error);
      }
      StartStands(h, used, old(disk.Tree()), old(disk.fs.dirs), store, bucket, r.value);
      store := WithUpload(store, bucket, id, Upload(r.value, map[], map[]));
      return Started(r.value.uploadId);
    }

    method UploadPart(bucket: string, key: string, id: string, partNumber: int, body: Body, now: int, suffix: string)
      returns (outcome: Outcome)
      requires Valid() && IsSegment(bucket) && id in used
      requires FreeName(store, bucket, id, "part-" + suffix)
      modifies this, disk
      ensures Valid() && (store, outcome) == StoringPart(h, old(store), bucket, key, id, partNumber, body, now)
      ensures !outcome.Failed? <==>
              1 <= partNumber <= 10000 && FindUpload(old(store), bucket, key, id).Ok? && !body.fails
    {
      UploadsAreFound(h, used, disk.Tree(), store, bucket, key, id);
      PartTemporaryIsFree(h, used, disk.Tree(), store, bucket, id, suffix);
      var r := multipart.UploadPart(bucket, key, id, partNumber, body, now, suffix);
      if r.Err? {
        return Failed(r.error);
      }
      ghost var part := PartFrom(h, partNumber, body, now);
      PartStands(h, used, old(disk.Tree()), old(disk.fs.dirs), store, bucket, id, part);
      store := WithPart(store, bucket, id, partNumber, part);
      return Stored(r.value);
    }

    method ListParts(bucket: string, key: string, id: string) returns (outcome: Outcome)
      requires Valid() && IsSegment(bucket) && id in used
      ensures (store, outcome) == ListingParts(store, bucket, key, id)
    {
      UploadsAreFound(h, used, disk.Tree(), store, bucket, key, id);
      NumbersStayApart(h, used, disk.Tree(), store, bucket, id);
      var r := multipart.ListParts(bucket, key, id);
      if FindUpload(store, bucket, key, id).Ok? {
        ListedParts(h, used, disk.Tree(), store, bucket, id, r);
      }
      return if r.Err? then Failed(r.error) else Parts(r.value);
    }

    method CompleteUpload(bucket: string, key: string, id: string, completed: seq<CompletedPart>, now: int,
                          combinedSuffix: string, suffix: string)
      returns (outcome: Outcome)
      requires Valid() && IsSegment(bucket) && key in used && id in used
      requires FreeName(store, bucket, id, "combined-" + combinedSuffix) && FreeSuffix(store, bucket, suffix)
      modifies this, disk
      ensures Valid() && (store, outcome) == Completing(h, old(store), bucket, key, id, completed, now)
      ensures var u := FindUpload(old(store), bucket, key, id);
              && (!outcome.Failed? <==> u.Ok? && MayBeJoined(u.value.parts, completed))
              && (!outcome.Failed? ==>
                    outcome.Described? && FindObject(store, bucket, key).Ok?
                    && FindObject(store, bucket, key).value.meta == outcome.meta
                    && IsCompletion(h, FindObject(store, bucket, key).value, key, u.value, completed, now))
    {
      UploadsAreFound(h, used, disk.Tree(), store, bucket, key, id);
      CompletionIsSound(h, used, store, bucket, key, id, completed, now);
      CompletionIsSame(h, used, disk.Tree(), store, bucket, key, id, completed, now);
      CombinedIsFree(h, used, disk.Tree(), store, bucket, id, combinedSuffix);
      TemporaryIsFree(h, used, disk.Tree(), store, bucket, suffix);
      var r := multipart.CompleteMultipartUpload(bucket, key, id, completed, now, combinedSuffix, suffix);
      if r.Err? {
        return Failed(r.error);
      }
      ghost var o := CompletionAt(h, old(disk.Tree()), bucket, key, id, completed, now);
      PutStands(h, used, old(disk.Tree()), old(disk.fs.dirs), store, bucket, key, o);
      ghost var dirs := old(disk.fs.dirs) + Ancestors(ObjectsDir(bucket)) + Ancestors(MetadataDir(bucket));
      ghost var stored := WithObject(store, bucket, key, o);
      EndStands(h, used, PutTree(h, old(disk.Tree()), bucket, key, o), dirs, stored, bucket, id);
      store := WithoutUpload(WithObject(store, bucket, key, o), bucket, id);
      return Outcome.Described(r.value);
    }

    method AbortUpload(bucket: string, key: string, id: string) returns (outcome: Outcome)
      requires Valid() && IsSegment(bucket) && id in used
      modifies this, disk
      ensures Valid() && (store, outcome) == Aborting(old(store), bucket, key, id)
    {
      UploadsAreFound(h, used, disk.Tree(), store, bucket, key, id);
      var r := multipart.AbortMultipartUpload(bucket, key, id);
      if r.Err? {
        return Failed(r.error);
      }
      EndStands(h, used, old(disk.Tree()), old(disk.fs.dirs), store, bucket, id);
      store := WithoutUpload(store, bucket, id);
      return Done;
    }

    /** Carry out any request; the suffixes are those its temporary files come out with. */
    method Execute(op: Op, suffix: string, combinedSuffix: string) returns (outcome: Outcome)
      requires Valid() && Admissible(used, store, op)
      requires NamesAreFree(store, op, suffix, combinedSuffix)
      modifies this, disk
      ensures Valid() && (store, outcome) == Apply(h, old(store), op)
    {
      match op
      case CreateBucket(b, now) => outcome := CreateBucket(b, now);
      case DeleteBucket(b) => outcome := DeleteBucket(b);
      case PutObject(b, k, body, meta, now) => outcome := PutObject(b, k, body, meta, now, suffix);
      case GetObject(b, k) => outcome := GetObject(b, k);
      case HeadObject(b, k) => outcome := HeadObject(b, k);
      case DeleteObject(b, k) => outcome := DeleteObject(b, k);
      case DeleteObjects(b, keys) => outcome := DeleteObjects(b, keys);
      case CopyObject(b, k, b', k', now) => outcome := CopyObject(b, k, b', k', now, suffix);
      case RenameObject(b, k, b', k', now) => outcome := RenameObject(b, k, b', k', now, suffix);
      case ListObjects(b, options) => outcome := ListObjects(b, options);
      case CreateUpload(b, k, meta, now, id) => outcome := CreateUpload(b, k, meta, now, id);
      case UploadPart(b, k, id, n, body, now) => outcome := UploadPart(b, k, id, n, body, now, suffix);
      case ListParts(b, k, id) => outcome := ListParts(b, k, id);
      case CompleteUpload(b, k, id, completed, now) =>
        outcome := CompleteUpload(b, k, id, completed, now, combinedSuffix, suffix);
      case AbortUpload(b, k, id) => outcome := AbortUpload(b, k, id);
    }

    /** Carry out requests one after another: the outcomes are those of the store, and the disk goes on standing
        for it. */
    method Run(ops: seq<Op>, suffixes: seq<(string, string)>) returns (outcomes: seq<Outcome>)
      requires Valid() && |suffixes| == |ops| && AdmissibleRun(h, used, store, ops, suffixes)
      modifies this, disk
      ensures Valid() && (store, outcomes) == AfterRun(h, old(store), ops)
    {
      outcomes := [];
      for i := 0 to |ops|
        invariant Valid() && (store, outcomes) == AfterRun(h, old(store), ops[..i])
      {
        assert ops[..i + 1][..i] == ops[..i];
        var outcome := Execute(ops[i], suffixes[i].0, suffixes[i].1);
        outcomes := outcomes + [outcome];
      }
      assert ops[..|ops|] == ops;
    }
  }

  lemma ShowsStored(h: Hashes, used: set<string>, t: Tree, s: Store, b: string, o: ListOptions, page: ListResult)
    requires Represents(h, used, t, s) && b in s
    requires exists ms :: InKeyOrder(t, MetadataDir(b), o.prefix, ms)
               && ShowsPage(Members(ms), o.prefix, o.delimiter, o.marker, if o.maxKeys <= 0 then 1000 else o.maxKeys,
                            page)
    ensures ShowsPage(Metas(s[b].objects), o.prefix, o.delimiter, o.marker,
                      if o.maxKeys <= 0 then 1000 else o.maxKeys, page)
  {
    var limit := if o.maxKeys <= 0 then 1000 else o.maxKeys;
    var ms :| InKeyOrder(t, MetadataDir(b), o.prefix, ms)
      && ShowsPage(Members(ms), o.prefix, o.delimiter, o.marker, limit, page);
    ListedAreStored(h, used, t, s, b, o.prefix, ms);
    SameCandidates(Members(ms), Metas(s[b].objects), o.prefix, o.delimiter, o.marker, limit, page);
  }

  lemma AnswersStored(h: Hashes, used: set<string>, t: Tree, s: Store, b: string, q: Query, page: ListResult)
    requires Represents(h, used, t, s) && b in s
    requires exists ms :: InKeyOrder(t, MetadataDir(b), q.prefix, ms) && AnswersQuery(Members(ms), q, page)
    ensures AnswersQuery(Metas(s[b].objects), q, page)
  {
    var ms :| InKeyOrder(t, MetadataDir(b), q.prefix, ms) && AnswersQuery(Members(ms), q, page);
    ListedAreStored(h, used, t, s, b, q.prefix, ms);
    var marker, limit :| AsksFrom(q, marker) && AsksFor(q, limit)
      && ShowsPage(Members(ms), q.prefix, q.delimiter, marker, limit, page);
    SameCandidates(Members(ms), Metas(s[b].objects), q.prefix, q.delimiter, marker, limit, page);
  }

  lemma BaseStands(h: Hashes, used: set<string>, t: Tree, dirs: set<Path>, s: Store)
    requires Stands(h, used, t, dirs, s)
    ensures Stands(h, used, t, dirs + Ancestors(BASE_PATH), s)
  {
    MakeDir(dirs, s, BASE_PATH);
  }

  lemma {:induction false} DeleteAllStands(h: Hashes, used: set<string>, t: Tree, dirs: set<Path>, s: Store, b: string,
                                           keys: seq<string>)
    requires Stands(h, used, t, dirs, s) && b in s && forall i :: 0 <= i < |keys| ==> keys[i] in used
    ensures Stands(h, used, DeleteAllTree(h, t, b, keys), dirs, WithoutObjects(s, b, keys))
  {
    if keys != [] {
      var init, last := keys[..|keys| - 1], keys[|keys| - 1];
      DeleteAllStands(h, used, t, dirs, s, b, init);
      DeleteStands(h, used, DeleteAllTree(h, t, b, init), dirs, WithoutObjects(s, b, init), b, last);
    }
  }

  lemma RenameStands(h: Hashes, used: set<string>, t: Tree, dirs: set<Path>, s: Store, b: string, k: string, b': string,
                     k': string, now: int)
    requires Stands(h, used, t, dirs, s) && k in used && k' in used && b in s && k in s[b].objects && b' in s
    requires ObjectAt(h, t, b, k) == Ok(s[b].objects[k])
    ensures Stands(h, used, RenameTree(h, t, b, k, b', k', now),
            dirs + Ancestors(ObjectsDir(b')) + Ancestors(MetadataDir(b')),
                   WithoutObject(WithObject(s, b', k', CopyOf(h, s[b].objects[k], k', now)), b, k))
  {
    var o := CopyOf(h, s[b].objects[k], k', now);
    PutStands(h, used, t, dirs, s, b', k', o);
    DeleteStands(h, used, PutTree(h, t, b', k', o), dirs + Ancestors(ObjectsDir(b')) + Ancestors(MetadataDir(b')),
                 WithObject(s, b', k', o), b, k);
  }

  lemma NumbersStayApart(h: Hashes, used: set<string>, t: Tree, s: Store, b: string, id: string)
    requires Represents(h, used, t, s) && id in used && IsSegment(b)
    ensures HasBucket(t, b) ==> NumbersAreApart(t, UploadDir(h, b, id))
  {
    BucketIsFound(h, used, t, s, b);
    if b in s {
      if id in s[b].uploads {
        PartsAreListed(h, used, t, s, b, id);
      } else {
        NothingInUploadDir(h, used, t, s, b, id);
      }
    }
  }

  lemma NothingInUploadDir(h: Hashes, used: set<string>, t: Tree, s: Store, b: string, id: string)
    requires Represents(h, used, t, s) && id in used && b in s && id !in s[b].uploads
    ensures forall name :: UploadDir(h, b, id) + [name] !in t
  {
    forall name
      ensures UploadDir(h, b, id) + [name] !in t
    {
      if UploadDir(h, b, id) + [name] in t {
        var f := WhichFile(h, used, t, s, UploadDir(h, b, id) + [name]);
        UnderUpload(h, used, f, b, id);
      }
    }
  }

  lemma ListedParts(h: Hashes, used: set<string>, t: Tree, s: Store, b: string, id: string,
                    r: Result<seq<MultipartPart>>)
    requires Represents(h, used, t, s) && b in s && id in s[b].uploads
    requires r.Ok? <==> forall name :: !BrokenPart(t, UploadDir(h, b, id), name)
    requires r.Ok? ==> AscendingNumbers(r.value) &&
                       forall p :: p in r.value <==> exists name :: DescribesPart(t, UploadDir(h, b, id), name, p)
    ensures r == Ok(PartsUpTo(s[b].uploads[id].parts, MAX_PART_NUMBER))
  {
    var parts := s[b].uploads[id].parts;
    assert SoundBucket(h, used, s[b]);
    assert SoundUpload(h, id, s[b].uploads[id]);
    PartsAreListed(h, used, t, s, b, id);
    PartsUpToAscend(h, parts, MAX_PART_NUMBER);
    AscendingPartsAreUnique(r.value, PartsUpTo(parts, MAX_PART_NUMBER));
  }

  lemma CompletionIsSound(h: Hashes, used: set<string>, s: Store, b: string, k: string, id: string,
                          completed: seq<CompletedPart>, now: int)
    requires SoundStore(h, used, s)
    ensures FindUpload(s, b, k, id).Ok? ==>
              var u, (s', outcome) := FindUpload(s, b, k, id).value, Completing(h, s, b, k, id, completed, now);
              && (!outcome.Failed? <==> MayBeJoined(u.parts, completed))
              && (!outcome.Failed? ==>
                    FindObject(s', b, k).Ok? && IsCompletion(h, FindObject(s', b, k).value, k, u, completed, now))
  {
    if FindUpload(s, b, k, id).Ok? {
      var u := s[b].uploads[id];
      AcceptableMayBeJoined(u.parts, completed);
      assert SoundBucket(h, used, s[b]);
      assert SoundUpload(h, id, u);
      SoundTags(h, u.parts);
      if Acceptable(u.parts, completed) {
        CompletionIsFound(h, s, b, k, id, completed, now);
      }
    }
  }

  lemma SoundTags(h: Hashes, parts: map<nat, Part>)
    requires SoundParts(h, parts)
    ensures AreRecorded(h, parts)
  {
    forall n | n in parts
      ensures 1 <= n <= 10000 && QuotesHex(parts[n].info.etag, h.md5(parts[n].data))
    {
      assert SoundPart(h, n, parts[n]);
      PlainTagQuotes(h, parts[n].data);
    }
  }

  lemma CompletionIsSame(h: Hashes, used: set<string>, t: Tree, s: Store, b: string, k: string, id: string,
                          completed: seq<CompletedPart>, now: int)
    requires Represents(h, used, t, s) && id in used && IsSegment(b)
    ensures HasBucket(t, b) ==> PartDataIsRaw(t, UploadDir(h, b, id))
    ensures FindUpload(s, b, k, id).Ok? ==>
              var u := FindUpload(s, b, k, id).value;
              && UploadAt(h, t, b, k, id).Ok?
              && CompletionAt(h, t, b, k, id, completed, now) ==
                CompletedObject(h, k, u.state.meta, u.parts, completed, now)
              && (Selectable(PartsIn(t, UploadDir(h, b, id)), completed) <==> Acceptable(u.parts, completed))
  {
    BucketIsFound(h, used, t, s, b);
    UploadsAreFound(h, used, t, s, b, k, id);
    if b in s {
      if id in s[b].uploads {
        PartsAreFound(h, used, t, s, b, id);
        assert SoundUpload(h, id, s[b].uploads[id]);
        SelectableIsAcceptable(h, s[b].uploads[id].parts, completed);
      } else {
        NoPartsWithoutUpload(h, used, t, s, b, id);
      }
    }
  }

  lemma DescribedKeysAreBytes(h: Hashes, used: set<string>, t: Tree, s: Store, b: string)
    requires Represents(h, used, t, s) && b in s && forall k :: k in used ==> IsByteString(k)
    ensures KeysAreBytes(t, MetadataDir(b))
  {
    forall name, m | DescribedBy(t, MetadataDir(b), name, "", m)
      ensures IsByteString(m.key)
    {
      DescribedIsObject(h, used, t, s, b, name, "", m);
    }
  }
}
