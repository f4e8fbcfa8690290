/** The filesystem backend: buckets and objects, one file-system call after another. */
module Backend {
  import opened Types
  import opened ByteStrings
  import opened Encoding
  import opened BucketNames
  import opened Layout
  import opened FileSystem
  import opened Listing
  import opened Sorting
  import opened ObjectStore
  import opened Trees
  import opened Grouping
  import opened Pages

  /** Object metadata, one JSON file per object. */
  class FSMetadataStore {
    const disk: Disk
    const h: Hashes

    constructor (disk: Disk, h: Hashes)
      ensures this.disk == disk && this.h == h
    {
      this.disk := disk;
      this.h := h;
    }

    method PutMetadata(bucket: string, key: string, meta: ObjectMeta)
      requires disk.Valid()
      modifies disk
      ensures disk.Valid() && disk.Tree() == WithMetadata(h, old(disk.Tree()), bucket, key, meta)
      ensures disk.fs.dirs == old(disk.fs.dirs) + Ancestors(MetadataDir(bucket))
      ensures disk.reached ==
              old(disk.reached) + {old(disk.Tree())[MetadataPath(h, bucket, key) := Raw([])], disk.Tree()}
    {
      var path := MetadataPath(h, bucket, key);
      assert Parent(path) == MetadataDir(bucket);
      disk.MkdirAll(MetadataDir(bucket));
      disk.WriteFile(path, MetaDoc(meta));
    }

    method GetMetadata(bucket: string, key: string) returns (r: Result<ObjectMeta>)
      requires disk.Valid()
      ensures r == MetadataAt(h, disk.Tree(), bucket, key)
      ensures var found := At(disk.Tree(), MetadataPath(h, bucket, key));
              if found.None? then r == Err(ObjectNotFound)
              else if found.value.Json? && found.value.doc.MetaDoc? then r == Ok(found.value.doc.meta)
              else r == Err(Undecodable)
    {
      var data := disk.ReadFile(MetadataPath(h, bucket, key));
      match data
      case None => r := Err(ObjectNotFound);
      case Some(Json(MetaDoc(meta))) => r := Ok(meta);
      case Some(_) => r := Err(Undecodable);
    }

    method DeleteMetadata(bucket: string, key: string)
      requires disk.Valid()
      modifies disk
      ensures disk.Valid() && disk.Tree() == old(disk.Tree()) - {MetadataPath(h, bucket, key)}
      ensures disk.fs.dirs == old(disk.fs.dirs) && disk.reached == old(disk.reached) + {disk.Tree()}
    {
      var existed := disk.Remove(MetadataPath(h, bucket, key));
    }

    /** The readable metadata files with the prefix, in whatever order the directory lists them. */
    method ListMetadata(bucket: string, prefix: string) returns (results: seq<ObjectMeta>, ghost files: seq<string>)
      requires disk.Valid()
      ensures Collects(disk.Tree(), MetadataDir(bucket), prefix, files, results)
      ensures forall name, m :: DescribedBy(disk.Tree(), MetadataDir(bucket), name, prefix, m) ==> m in results
    {
      var dir := MetadataDir(bucket);
      var entries := disk.ReadDir(dir);
      results, files := [], [];
      for i := 0 to |entries|
        invariant Collects(disk.Tree(), dir, prefix, files, results)
        invariant forall name :: name in files ==> DirEntry(name, false) in entries[..i]
        invariant forall name, m ::
                    DirEntry(name, false) in entries[..i] && DescribedBy(disk.Tree(), dir, name, prefix, m) ==>
                      m in results
      {
        var entry := entries[i];
        assert entries[..i + 1] == entries[..i] + [entry];
        if entry.isDir {
          continue;
        }
        var data := disk.ReadFile(dir + [entry.name]);
        match data {
          case Some(Json(MetaDoc(meta))) =>
            if HasPrefix(meta.key, prefix) {
              assert entry !in entries[..i];
              results := results + [meta];
              files := files + [entry.name];
            }
          case _ =>
        }
      }
      assert entries[..|entries|] == entries;
    }
  }

  class FSBackend {
    const disk: Disk
    const h: Hashes
    const metaStore: FSMetadataStore

    ghost predicate Valid()
      reads disk
    {
      disk.Valid() && metaStore.disk == disk && metaStore.h == h
    }

    /** Opens the data directory, new or not. */
    constructor (disk: Disk, h: Hashes)
      requires disk.Valid()
      modifies disk
      ensures Valid() && this.disk == disk && this.h == h
      ensures disk.Tree() == old(disk.Tree()) && disk.fs.dirs == old(disk.fs.dirs) + Ancestors(BASE_PATH)
      ensures disk.reached == old(disk.reached)
    {
      this.disk := disk;
      this.h := h;
      this.metaStore := new FSMetadataStore(disk, h);
      new;
      disk.MkdirAll(BASE_PATH);
    }

    // ----- buckets -----

    method BucketExists(name: string) returns (exists_: bool)
      requires Valid()
      ensures exists_ == HasBucket(disk.Tree(), name)
    {
      exists_ := disk.Exists(RecordPath(name));
    }

    method CreateBucket(name: string, now: int) returns (r: Result<()>)
      requires Valid()
      modifies disk
      ensures Valid()
      ensures r == if !ValidBucketName(name) then Err(InvalidBucketName)
                   else if HasBucket(old(disk.Tree()), name) then Err(Error.BucketExists) else Ok(())
      ensures disk.Tree() == if r.Ok?
                             then old(disk.Tree())[RecordPath(name) := Json(BucketDoc(name, now, "us-east-1"))]
                             else old(disk.Tree())
      ensures disk.fs.dirs == if r.Ok? then old(disk.fs.dirs) + Ancestors(BucketPath(name)) + Ancestors(RecordDir(name))
                              else old(disk.fs.dirs)
    {
      var valid := IsValidBucketName(name);
      if !valid {
        return Err(InvalidBucketName);
      }
      var found := disk.Exists(RecordPath(name));
      if found {
        return Err(Error.BucketExists);
      }
      disk.MkdirAll(BucketPath(name));
      disk.MkdirAll(RecordDir(name));
      assert Parent(RecordPath(name)) == RecordDir(name);
      disk.WriteFile(RecordPath(name), BucketDoc(name, now, REGION));
      return Ok(());
    }

    method DeleteBucket(name: string) returns (r: Result<()>)
      requires Valid()
      modifies disk
      ensures Valid()
      ensures r == DeletionResult(old(disk.fs), name)
      ensures disk.Tree() == if r.Ok? then DropBucketTree(old(disk.Tree()), name) else old(disk.Tree())
      ensures disk.fs.dirs == if r.Ok? then DeletionDirs(old(disk.fs.dirs), name) else old(disk.fs.dirs)
    {
      var found := disk.Stat(BucketPath(name));
      if found == Missing {
        return Err(BucketNotFound);
      } else if found == Blocked {
        return Err(NotADirectory);
      }
      var inside := disk.Stat(ObjectsDir(name));
      if inside == File || inside == Blocked {
        return Err(NotADirectory);
      }
      var entries := disk.ReadDir(ObjectsDir(name));
      EntriesAreHasChild(disk.fs, ObjectsDir(name), entries);
      if |entries| > 0 {
        return Err(BucketNotEmpty);
      }
      disk.RemoveAll(BucketPath(name));
      disk.RemoveAll(RecordDir(name));
      return Ok(());
    }

    // ----- objects -----

    /** `io.Copy` into a temporary file and a running MD5. */
    method CopyBody(ino: Inode, ghost p: Path, body: Body) returns (written: int, hashed: Bytes, ok: bool)
      requires Valid() && p in disk.fs.names && disk.fs.names[p] == ino && disk.Tree()[p] == Raw([])
      modifies disk
      ensures Valid() && disk.Tree() == old(disk.Tree())[p := Raw(Concat(body.chunks))]
      ensures disk.fs.dirs == old(disk.fs.dirs)
      ensures hashed == Concat(body.chunks) && written == |hashed| && ok == !body.fails
      ensures forall t :: t in disk.reached ==> t in old(disk.reached) || t - {p} == old(disk.Tree()) - {p}
    {
      written, hashed := 0, [];
      assert body.chunks[..0] == [];
      for i := 0 to |body.chunks|
        invariant Valid() && disk.fs.names == old(disk.fs.names) && disk.fs.dirs == old(disk.fs.dirs)
        invariant hashed == Concat(body.chunks[..i]) && written == |hashed|
        invariant disk.Tree() == old(disk.Tree())[p := Raw(hashed)]
        invariant forall t :: t in disk.reached ==> t in old(disk.reached) || t - {p} == old(disk.Tree()) - {p}
      {
        disk.Write(ino, p, body.chunks[i]);
        hashed := hashed + body.chunks[i];
        written := written + |body.chunks[i]|;
        ConcatStep(body.chunks, i);
        WriteElsewhere(old(disk.Tree()), p, Raw(hashed));
      }
      assert body.chunks[..|body.chunks|] == body.chunks;
      ok := !body.fails;
    }

    /** Stream a body into a new temporary file. */
    method Receive(dir: Path, name: string, body: Body) returns (written: int, hashed: Bytes, ok: bool)
      requires Valid() && dir + [name] !in disk.Tree() && dir in disk.fs.dirs
      modifies disk
      ensures Valid() && disk.fs.dirs == old(disk.fs.dirs)
      ensures hashed == Concat(body.chunks) && written == |hashed| && ok == !body.fails
      ensures disk.Tree() == old(disk.Tree())[dir + [name] := Raw(hashed)]
      ensures forall t :: t in disk.reached ==> t in old(disk.reached) || t - {dir + [name]} == old(disk.Tree())
    {
      ghost var before := disk.Tree();
      var tmpPath, tmpFile := disk.CreateTemp(dir, name);
      DropTemporary(before, tmpPath, Raw([]));
      written, hashed, ok := CopyBody(tmpFile, tmpPath, body);
      UpdateTwice(before, tmpPath, Raw([]), Raw(hashed));
    }

    method PutObject(bucket: string, key: string, body: Body, meta: ObjectMeta, now: int, suffix: string)
      returns (r: Result<()>)
      requires Valid() && TempPath(bucket, suffix) !in disk.Tree()
      modifies disk
      ensures Valid()
      ensures r == if !HasBucket(old(disk.Tree()), bucket) then Err(BucketNotFound)
                   else if body.fails then Err(BodyReadFailed) else Ok(())
      ensures disk.Tree() == if r.Ok?
                             then PutTree(h, old(disk.Tree()), bucket, key, ObjectFrom(h, key, body, meta, now))
                             else old(disk.Tree())
      ensures r.Ok? ==>
                var o, data := ObjectAt(h, disk.Tree(), bucket, key), Concat(body.chunks);
                && o.Ok? && o.value.data == data && QuotesHex(o.value.meta.etag, h.md5(data))
                && Records(o.value.meta, key, data, meta.contentType, meta.userMetadata, now)
      ensures PutStages(h, old(disk.Tree()), bucket, key, TempPath(bucket, suffix), ObjectFrom(h, key, body, meta, now),
                        old(disk.reached), disk.reached)
      ensures disk.fs.dirs == if r == Err(BucketNotFound) then old(disk.fs.dirs)
                              else if r.Err? then old(disk.fs.dirs) + Ancestors(ObjectsDir(bucket))
                              else old(disk.fs.dirs) + Ancestors(ObjectsDir(bucket)) + Ancestors(MetadataDir(bucket))
    {
      var found := BucketExists(bucket);
      if !found {
        return Err(BucketNotFound);
      }
      ghost var before := disk.Tree();
      disk.MkdirAll(ObjectsDir(bucket));
      var written, hashed, ok := Receive(ObjectsDir(bucket), ".tmp-" + suffix, body);
      if !ok {
        var _ := disk.Remove(TempPath(bucket, suffix));
        DropTemporary(before, TempPath(bucket, suffix), Raw(hashed));
        WriteElsewhere(before, TempPath(bucket, suffix), Raw(hashed));
        return Err(BodyReadFailed);
      }
      var stored := ObjectMeta(key, if meta.contentType == "" then DEFAULT_CONTENT_TYPE else meta.contentType, written,
                               Quoted(Hex(h.md5(hashed))), now, meta.userMetadata);
      FinishPut(bucket, key, suffix, Object(hashed, stored), before);
      PutIsFound(h, before, bucket, key, Object(hashed, stored));
      StoredRecords(h, key, hashed, meta, now);
      return Ok(());
    }

    /** The rest of a put once its body is in the temporary file: rename it into place, write the metadata, and drop
        the temporary name, which is gone by then. */
    method FinishPut(bucket: string, key: string, suffix: string, o: Object, ghost before: Tree)
      requires Valid() && TempPath(bucket, suffix) !in before && ObjectsDir(bucket) in disk.fs.dirs
      requires disk.Tree() == before[TempPath(bucket, suffix) := Raw(o.data)]
      modifies disk
      ensures Valid() && disk.Tree() == PutTree(h, before, bucket, key, o)
      ensures disk.fs.dirs == old(disk.fs.dirs) + Ancestors(MetadataDir(bucket))
      ensures PutStages(h, before, bucket, key, TempPath(bucket, suffix), o, old(disk.reached), disk.reached)
    {
      TempIsElsewhere(h, bucket, key, suffix);
      MovedIntoPlace(before, TempPath(bucket, suffix), ObjectPath(h, bucket, key), Raw(o.data));
      LastPutStages(h, before, bucket, key, suffix, o);
      disk.Rename(TempPath(bucket, suffix), ObjectPath(h, bucket, key));
      assert disk.Tree() == WithData(h, before, bucket, key, o.data);
      metaStore.PutMetadata(bucket, key, o.meta);
      assert disk.Tree() == PutTree(h, before, bucket, key, o);
      var _ := disk.Remove(TempPath(bucket, suffix));
    }

    /** The data comes as an open file. */
    method GetObject(bucket: string, key: string) returns (r: Result<(Inode, ObjectMeta)>)
      requires Valid() && DataIsRaw(h, disk.Tree(), bucket, key)
      ensures r == match ObjectAt(h, disk.Tree(), bucket, key)
                   case Ok(o) => Ok((disk.fs.names[ObjectPath(h, bucket, key)], o.meta))
                   case Err(e) => Err(e)
      ensures r.Ok? ==> r.value.0 in disk.fs.inodes &&
                        disk.fs.inodes[r.value.0] == Raw(ObjectAt(h, disk.Tree(), bucket, key).value.data)
    {
      var found := BucketExists(bucket);
      if !found {
        return Err(BucketNotFound);
      }
      var meta := metaStore.GetMetadata(bucket, key);
      if meta.Err? {
        return Err(meta.error);
      }
      var file := disk.Open(ObjectPath(h, bucket, key));
      if file.None? {
        return Err(ObjectNotFound);
      }
      return Ok((file.value, meta.value));
    }

    method HeadObject(bucket: string, key: string) returns (r: Result<ObjectMeta>)
      requires Valid()
      ensures r == HeadAt(h, disk.Tree(), bucket, key)
    {
      var found := BucketExists(bucket);
      if !found {
        return Err(BucketNotFound);
      }
      r := metaStore.GetMetadata(bucket, key);
    }

    method DeleteObject(bucket: string, key: string) returns (r: Result<()>)
      requires Valid()
      modifies disk
      ensures Valid() && disk.fs.dirs == old(disk.fs.dirs)
      ensures r == if HasBucket(old(disk.Tree()), bucket) then Ok(()) else Err(BucketNotFound)
      ensures disk.Tree() == if r.Ok? then DeleteTree(h, old(disk.Tree()), bucket, key) else old(disk.Tree())
      ensures forall t ::
                t in disk.reached ==> t in old(disk.reached) || DeleteStage(h, old(disk.Tree()), bucket, key, t)
    {
      var found := BucketExists(bucket);
      if !found {
        return Err(BucketNotFound);
      }
      ghost var before := disk.Tree();
      RemoveBoth(before, ObjectPath(h, bucket, key), MetadataPath(h, bucket, key));
      var existed := disk.Remove(ObjectPath(h, bucket, key));
      if !existed {
        return Ok(());
      }
      metaStore.DeleteMetadata(bucket, key);
      return Ok(());
    }

    method CopyObject(srcBucket: string, srcKey: string, dstBucket: string, dstKey: string, now: int, suffix: string)
      returns (r: Result<ObjectMeta>)
      requires Valid() && DataIsRaw(h, disk.Tree(), srcBucket, srcKey) && TempPath(dstBucket, suffix) !in disk.Tree()
      modifies disk
      ensures Valid()
      ensures r == CopyResult(h, old(disk.Tree()), srcBucket, srcKey, dstBucket, dstKey, now)
      ensures disk.Tree() == if r.Ok?
                             then CopyTree(h, old(disk.Tree()), srcBucket, srcKey, dstBucket, dstKey, now)
                             else old(disk.Tree())
      ensures r.Ok? ==>
                var from, o := ObjectAt(h, old(disk.Tree()), srcBucket, srcKey).value,
                    ObjectAt(h, disk.Tree(), dstBucket, dstKey);
                && o.Ok? && o.value == Object(from.data, r.value) && QuotesHex(r.value.etag, h.md5(from.data))
                && Records(r.value, dstKey, from.data, from.meta.contentType, from.meta.userMetadata, now)
      ensures ObjectAt(h, old(disk.Tree()), srcBucket, srcKey).Ok? ==>
                PutStages(h, old(disk.Tree()), dstBucket, dstKey, TempPath(dstBucket, suffix),
                          CopyOf(h, ObjectAt(h, old(disk.Tree()), srcBucket, srcKey).value, dstKey, now),
                          old(disk.reached), disk.reached)
      ensures ObjectAt(h, old(disk.Tree()), srcBucket, srcKey).Err? ==> disk.reached == old(disk.reached)
      ensures disk.fs.dirs ==
              if r.Ok? then old(disk.fs.dirs) + Ancestors(ObjectsDir(dstBucket)) + Ancestors(MetadataDir(dstBucket))
              else old(disk.fs.dirs)
    {
      var source := GetObject(srcBucket, srcKey);
      if source.Err? {
        return Err(source.error);
      }
      var (reader, srcMeta) := source.value;
      var data := disk.ReadAll(reader);
      var meta := ObjectMeta("", srcMeta.contentType, 0, "", 0, srcMeta.userMetadata);
      ConcatOne(data);
      var put := PutObject(dstBucket, dstKey, Body([data], false), meta, now, suffix);
      if put.Err? {
        return Err(put.error);
      }
      r := metaStore.GetMetadata(dstBucket, dstKey);
    }

    method RenameObject(srcBucket: string, srcKey: string, dstBucket: string, dstKey: string, now: int, suffix: string)
      returns (r: Result<ObjectMeta>)
      requires Valid() && DataIsRaw(h, disk.Tree(), srcBucket, srcKey) && TempPath(dstBucket, suffix) !in disk.Tree()
      modifies disk
      ensures Valid()
      ensures srcBucket == dstBucket && srcKey == dstKey ==>
                r == HeadAt(h, old(disk.Tree()), srcBucket, srcKey) && disk.Tree() == old(disk.Tree()) &&
                disk.fs.dirs == old(disk.fs.dirs) && disk.reached == old(disk.reached)
      ensures srcBucket != dstBucket || srcKey != dstKey ==>
                var copied := CopyResult(h, old(disk.Tree()), srcBucket, srcKey, dstBucket, dstKey, now).Ok?;
                && r == CopyResult(h, old(disk.Tree()), srcBucket, srcKey, dstBucket, dstKey, now)
                && disk.Tree() == (if copied
                                   then RenameTree(h, old(disk.Tree()), srcBucket, srcKey, dstBucket, dstKey, now)
                                   else old(disk.Tree()))
                && RenameStages(h, old(disk.Tree()), srcBucket, srcKey, dstBucket, dstKey, now,
                                TempPath(dstBucket, suffix), old(disk.reached), disk.reached)
                && disk.fs.dirs ==
                   if copied
                   then old(disk.fs.dirs) + Ancestors(ObjectsDir(dstBucket)) + Ancestors(MetadataDir(dstBucket))
                   else old(disk.fs.dirs)
    {
      if srcBucket == dstBucket && srcKey == dstKey {
        r := HeadObject(srcBucket, srcKey);
        return;
      }
      var meta := CopyObject(srcBucket, srcKey, dstBucket, dstKey, now, suffix);
      if meta.Err? {
        return meta;
      }
      var deleted := DeleteObject(srcBucket, srcKey);
      if deleted.Err? {
        assert false;
      }
      return meta;
    }

    method ListObjects(bucket: string, options: ListOptions) returns (r: Result<ListResult>)
      requires Valid() && (HasBucket(disk.Tree(), bucket) ==> KeysAreApart(disk.Tree(), MetadataDir(bucket)))
      ensures !HasBucket(disk.Tree(), bucket) ==> r == Err(BucketNotFound)
      ensures HasBucket(disk.Tree(), bucket) ==>
                exists ms :: InKeyOrder(disk.Tree(), MetadataDir(bucket), options.prefix, ms)
                  && r == Ok(Page(ms, options))
                  && ShowsPage(Members(ms), options.prefix, options.delimiter, options.marker,
                               if options.maxKeys <= 0 then 1000 else options.maxKeys, r.value)
    {
      var found := BucketExists(bucket);
      if !found {
        return Err(BucketNotFound);
      }
      var metadata, files := metaStore.ListMetadata(bucket, options.prefix);
      KeyOrderIsTotal();
      var sorted := SortSlice(metadata, KEY_ORDER);
      SortedIsInKeyOrder(disk.Tree(), MetadataDir(bucket), options.prefix, files, metadata, sorted);
      var result := ListSorted(sorted, options);
      ListedShows(disk.Tree(), MetadataDir(bucket), sorted, options);
      return Ok(result);
    }
  }

  // ----- sorting a listing -----

  const KEY_ORDER := (a: ObjectMeta, b: ObjectMeta) => !Less(b.key, a.key)

  lemma KeyOrderIsTotal()
    ensures Total(KEY_ORDER) && Transitive(KEY_ORDER)
  {
    forall a, b
      ensures KEY_ORDER(a, b) || KEY_ORDER(b, a)
    {
      if Less(a.key, b.key) {
        LessAsymmetric(a.key, b.key);
      }
    }
    forall a, b, c | KEY_ORDER(a, b) && KEY_ORDER(b, c)
      ensures KEY_ORDER(a, c)
    {
      LessTotal(a.key, b.key);
      if Less(c.key, a.key) {
        if Less(a.key, b.key) {
          LessTransitive(c.key, a.key, b.key);
        }
      }
    }
  }

  lemma SortedIsInKeyOrder(t: Tree, dir: Path, prefix: string, files: seq<string>, metadata: seq<ObjectMeta>,
                           sorted: seq<ObjectMeta>)
    requires KeysAreApart(t, dir) && Collects(t, dir, prefix, files, metadata)
    requires forall name, m :: DescribedBy(t, dir, name, prefix, m) ==> m in metadata
    requires SortedBy(KEY_ORDER, sorted) && multiset(sorted) == multiset(metadata)
    ensures InKeyOrder(t, dir, prefix, sorted)
    ensures forall i {:trigger sorted[i]} :: 0 < i < |sorted| ==> ByteBefore(sorted[i - 1].key, sorted[i].key)
  {
    forall m
      ensures m in sorted <==> IsListed(t, dir, prefix, m)
    {
      SameMembers(sorted, metadata, m);
      if m in metadata {
        var i :| 0 <= i < |metadata| && metadata[i] == m;
        assert DescribedBy(t, dir, files[i], prefix, m);
      }
    }
    assert Distinct(metadata) by {
      forall i, j | 0 <= i < j < |metadata|
        ensures metadata[i] != metadata[j]
      {
        assert DescribedBy(t, dir, files[i], "", metadata[i]) && DescribedBy(t, dir, files[j], "", metadata[j]);
      }
    }
    PermutationOfDistinct(metadata, sorted);
    forall i, j | 0 <= i < j < |sorted|
      ensures Less(sorted[i].key, sorted[j].key)
    {
      assert KEY_ORDER(sorted[i], sorted[j]);
      LessTotal(sorted[i].key, sorted[j].key);
      if sorted[i].key == sorted[j].key {
        assert sorted[i] in sorted && sorted[j] in sorted;
        SameKeySameMeta(t, dir, prefix, sorted[i], sorted[j]);
      }
    }
    forall i {:trigger sorted[i]} | 0 < i < |sorted|
      ensures ByteBefore(sorted[i - 1].key, sorted[i].key)
    {
      LessIsByteOrder(sorted[i - 1].key, sorted[i].key);
    }
  }

  lemma SameKeySameMeta(t: Tree, dir: Path, prefix: string, m: ObjectMeta, m': ObjectMeta)
    requires KeysAreApart(t, dir) && m.key == m'.key
    requires IsListed(t, dir, prefix, m) && IsListed(t, dir, prefix, m')
    ensures m == m'
  {
    var a :| DescribedBy(t, dir, a, prefix, m);
    var b :| DescribedBy(t, dir, b, prefix, m');
    assert DescribedBy(t, dir, a, "", m) && DescribedBy(t, dir, b, "", m');
  }

  lemma KeyOrderIsListable(t: Tree, dir: Path, ms: seq<ObjectMeta>, o: ListOptions)
    requires InKeyOrder(t, dir, o.prefix, ms)
    ensures Listable(ms, o)
  {
    forall i | 0 <= i < |ms|
      ensures HasPrefix(ms[i].key, o.prefix)
    {
      assert ms[i] in ms;
      var name :| DescribedBy(t, dir, name, o.prefix, ms[i]);
    }
  }

  lemma ListedShows(t: Tree, dir: Path, ms: seq<ObjectMeta>, o: ListOptions)
    requires InKeyOrder(t, dir, o.prefix, ms)
    ensures ShowsPage(Members(ms), o.prefix, o.delimiter, o.marker, if o.maxKeys <= 0 then 1000 else o.maxKeys,
                      Page(ms, o))
  {
    KeyOrderIsListable(t, dir, ms, o);
    PageShows(ms, o);
  }

  // ----- small facts about trees -----

  lemma PutIsFound(h: Hashes, t: Tree, bucket: string, key: string, o: Object)
    requires HasBucket(t, bucket)
    ensures ObjectAt(h, PutTree(h, t, bucket, key, o), bucket, key) == Ok(o)
  {
    TempIsElsewhere(h, bucket, key, "");
  }

  lemma EntriesAreHasChild(fs: FS, dir: Path, entries: seq<DirEntry>)
    requires Lists(fs, dir, entries)
    ensures |entries| > 0 <==> HasChild(fs, dir)
  {
    if |entries| > 0 {
      assert entries[0] in entries;
      assert dir + [entries[0].name] in fs.names || dir + [entries[0].name] in fs.dirs;
    }
    if HasChild(fs, dir) {
      var name :| dir + [name] in fs.names || dir + [name] in fs.dirs;
      assert DirEntry(name, false) in entries || DirEntry(name, true) in entries;
    }
  }

  lemma ConcatStep(chunks: seq<Bytes>, i: nat)
    requires i < |chunks|
    ensures Concat(chunks[..i + 1]) == Concat(chunks[..i]) + chunks[i]
  {
    assert chunks[..i + 1][..i] == chunks[..i];
  }

  lemma WriteElsewhere(t: Tree, p: Path, c: Content)
    ensures t[p := c] - {p} == t - {p}
  {
  }

  lemma MovedIntoPlace(t: Tree, p: Path, q: Path, c: Content)
    requires p !in t && p != q
    ensures (t[p := c] - {p})[q := c] == t[q := c]
  {
  }

  lemma LastPutStages(h: Hashes, before: Tree, bucket: string, key: string, suffix: string, o: Object)
    requires TempPath(bucket, suffix) !in before
    ensures var stored := WithData(h, before, bucket, key, o.data);
            var tmp := TempPath(bucket, suffix);
            && PutTree(h, before, bucket, key, o) - {tmp} == PutTree(h, before, bucket, key, o)
            && PutStage(h, before, bucket, key, tmp, o, stored)
            && PutStage(h, before, bucket, key, tmp, o, stored[MetadataPath(h, bucket, key) := Raw([])])
            && PutStage(h, before, bucket, key, tmp, o, PutTree(h, before, bucket, key, o))
  {
    var tmp := TempPath(bucket, suffix);
    TempIsElsewhere(h, bucket, key, suffix);
    var stored := WithData(h, before, bucket, key, o.data);
    var emptied := stored[MetadataPath(h, bucket, key) := Raw([])];
    var done := PutTree(h, before, bucket, key, o);
    assert stored - {tmp} == stored && emptied - {tmp} == emptied && done - {tmp} == done;
  }

  lemma DropTemporary(t: Tree, p: Path, c: Content)
    requires p !in t
    ensures t[p := c] - {p} == t && t - {p} == t
  {
  }

  lemma RemoveBoth(t: Tree, p: Path, q: Path)
    ensures (t - {p}) - {q} == t - {p, q}
    ensures p !in t ==> t - {p} == t
  {
  }

  lemma ConcatOne(data: Bytes)
    ensures Concat([data]) == data
  {
    assert [data][..0] == [];
    assert Concat([]) + data == data;
  }
}
