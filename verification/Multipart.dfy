/** The multipart protocol: parts collect in an upload's directory until the upload is completed or aborted. */
module Multipart {
  import opened Types
  import opened Encoding
  import opened Layout
  import opened FileSystem
  import opened Sorting
  import opened ObjectStore
  import opened Assembly
  import opened Trees
  import opened Backend

  class MultipartBackend {
    const disk: Disk
    const h: Hashes
    const backend: FSBackend

    ghost predicate Valid()
      reads disk, backend.disk
    {
      backend.Valid() && backend.disk == disk && backend.h == h
    }

    constructor (backend: FSBackend)
      requires backend.Valid()
      ensures Valid() && this.backend == backend && this.disk == backend.disk && this.h == backend.h
    {
      this.disk := backend.disk;
      this.h := backend.h;
      this.backend := backend;
    }

    /** `id` is what the random generator produced. */
    method CreateMultipartUpload(bucket: string, key: string, meta: ObjectMeta, now: int, id: string)
      returns (r: Result<UploadState>)
      requires Valid()
      modifies disk
      ensures Valid()
      ensures r == if HasBucket(old(disk.Tree()), bucket)
                   then Ok(UploadState(id, key, now, meta)) else Err(BucketNotFound)
      ensures disk.Tree() == if r.Ok?
                             then old(disk.Tree())[UploadPath(UploadDir(h, bucket, id)) := Json(UploadDoc(r.value))]
                             else old(disk.Tree())
      ensures disk.fs.dirs == if r.Ok?
                              then old(disk.fs.dirs) + Ancestors(UploadDir(h, bucket, id)) else old(disk.fs.dirs)
    {
      var found := backend.BucketExists(bucket);
      if !found {
        return Err(BucketNotFound);
      }
      var path := UploadDir(h, bucket, id);
      disk.MkdirAll(path);
      assert Parent(UploadPath(path)) == path;
      var state := UploadState(id, key, now, meta);
      disk.WriteFile(UploadPath(path), UploadDoc(state));
      return Ok(state);
    }

    method ReadUpload(bucket: string, key: string, id: string) returns (r: Result<UploadState>)
      requires Valid()
      ensures r == UploadAt(h, disk.Tree(), bucket, key, id)
      ensures var found := At(disk.Tree(), UploadPath(UploadDir(h, bucket, id)));
              if RecordPath(bucket) !in disk.Tree() then r == Err(BucketNotFound)
              else if found.None? then r == Err(UploadNotFound)
              else if !(found.value.Json? && found.value.doc.UploadDoc?) then r == Err(Undecodable)
              else if found.value.doc.state.uploadId == id && found.value.doc.state.key == key
              then r == Ok(found.value.doc.state) else r == Err(UploadNotFound)
      ensures r.Ok? ==> UploadDir(h, bucket, id) in disk.fs.dirs
    {
      var found := backend.BucketExists(bucket);
      if !found {
        return Err(BucketNotFound);
      }
      var path := UploadDir(h, bucket, id);
      var data := disk.ReadFile(UploadPath(path));
      match data {
        case None => return Err(UploadNotFound);
        case Some(Json(UploadDoc(state))) =>
          assert Parent(UploadPath(path)) == path;
          if state.uploadId != id || state.key != key {
            return Err(UploadNotFound);
          }
          return Ok(state);
        case Some(_) => return Err(Undecodable);
      }
    }

    method UploadPart(bucket: string, key: string, id: string, partNumber: int, body: Body, now: int, suffix: string)
      returns (r: Result<MultipartPart>)
      requires Valid() && UploadDir(h, bucket, id) + [".part-" + suffix] !in disk.Tree()
      modifies disk
      ensures Valid() && disk.fs.dirs == old(disk.fs.dirs)
      ensures r == if !ValidPartNumber(partNumber) then Err(InvalidPart)
                   else match UploadAt(h, old(disk.Tree()), bucket, key, id)
                        case Err(e) => Err(e)
                        case Ok(_) =>
                          if body.fails then Err(BodyReadFailed) else Ok(PartFrom(h, partNumber, body, now).info)
      ensures disk.Tree() ==
              if r.Ok? then PartTree(old(disk.Tree()), UploadDir(h, bucket, id), PartFrom(h, partNumber, body, now))
              else old(disk.Tree())
      ensures r.Ok? <==> 1 <= partNumber <= 10000 && UploadAt(h, old(disk.Tree()), bucket, key, id).Ok? && !body.fails
      ensures r.Ok? ==>
                && r.value.partNumber == partNumber && r.value.size == |Concat(body.chunks)|
                && r.value.lastModified == now && QuotesHex(r.value.etag, h.md5(Concat(body.chunks)))
                && PartAt(disk.Tree(), UploadDir(h, bucket, id), partNumber)
                   == Some(Part(Concat(body.chunks), r.value))
    {
      if !ValidPartNumber(partNumber) {
        return Err(InvalidPart);
      }
      var upload := ReadUpload(bucket, key, id);
      if upload.Err? {
        return Err(upload.error);
      }
      ghost var before := disk.Tree();
      var uploadPath := UploadDir(h, bucket, id);
      var tmpPath := uploadPath + [".part-" + suffix];
      var size, hashed, ok := backend.Receive(uploadPath, ".part-" + suffix, body);
      DropTemporary(before, tmpPath, Raw(hashed));
      if !ok {
        var _ := disk.Remove(tmpPath);
        return Err(BodyReadFailed);
      }
      TemporaryIsNoPart(uploadPath, ".part-" + suffix, partNumber);
      MovedIntoPlace(before, tmpPath, PartDataPath(uploadPath, partNumber), Raw(hashed));
      disk.Rename(tmpPath, PartDataPath(uploadPath, partNumber));
      var part := MultipartPart(partNumber, Quoted(Hex(h.md5(hashed))), size, now);
      disk.WriteFile(PartMetadataPath(uploadPath, partNumber), PartDoc(part));
      DropTemporary(PartTree(before, uploadPath, PartFrom(h, partNumber, body, now)), tmpPath, Raw([]));
      PartIsThere(before, uploadPath, PartFrom(h, partNumber, body, now));
      PlainTagQuotes(h, hashed);
      var _ := disk.Remove(tmpPath);
      return Ok(part);
    }

    method AbortMultipartUpload(bucket: string, key: string, id: string) returns (r: Result<()>)
      requires Valid()
      modifies disk
      ensures Valid()
      ensures r == match UploadAt(h, old(disk.Tree()), bucket, key, id) case Err(e) => Err(e) case Ok(_) => Ok(())
      ensures disk.Tree() == if r.Ok? then Without(old(disk.Tree()), UploadDir(h, bucket, id)) else old(disk.Tree())
      ensures disk.fs.dirs == if r.Ok?
                              then set d | d in old(disk.fs.dirs) && !Under(UploadDir(h, bucket, id), d)
                              else old(disk.fs.dirs)
    {
      var upload := ReadUpload(bucket, key, id);
      if upload.Err? {
        return Err(upload.error);
      }
      disk.RemoveAll(UploadDir(h, bucket, id));
      return Ok(());
    }

    /** All parts, in ascending number, unless some part file does not decode. */
    method ListParts(bucket: string, key: string, id: string) returns (r: Result<seq<MultipartPart>>)
      requires Valid() && (HasBucket(disk.Tree(), bucket) ==> NumbersAreApart(disk.Tree(), UploadDir(h, bucket, id)))
      ensures UploadAt(h, disk.Tree(), bucket, key, id).Err? ==>
              r == Err(UploadAt(h, disk.Tree(), bucket, key, id).error)
      ensures UploadAt(h, disk.Tree(), bucket, key, id).Ok? ==>
                var t, dir := disk.Tree(), UploadDir(h, bucket, id);
                && (r.Ok? <==> forall name :: !BrokenPart(t, dir, name))
                && (r.Ok? ==> AscendingNumbers(r.value) &&
                              forall p :: p in r.value <==> exists name :: DescribesPart(t, dir, name, p))
    {
      var upload := ReadUpload(bucket, key, id);
      if upload.Err? {
        return Err(upload.error);
      }
      var dir := UploadDir(h, bucket, id);
      var entries := disk.ReadDir(dir);
      var parts: seq<MultipartPart> := [];
      ghost var files: seq<string> := [];
      for i := 0 to |entries|
        invariant PartsRead(disk.Tree(), dir, entries[..i], files, parts)
      {
        var entry := entries[i];
        assert entries[..i + 1] == entries[..i] + [entry];
        assert entry !in entries[..i];
        if entry.isDir || !IsPartMetadataName(entry.name) {
          SkipEntry(disk.Tree(), dir, entries[..i], files, parts, entry);
          continue;
        }
        var data := disk.ReadFile(dir + [entry.name]);
        if data.Some? && data.value.Json? && data.value.doc.PartDoc? {
          ReadEntry(disk.Tree(), dir, entries[..i], files, parts, entry, data.value.doc.part);
          parts := parts + [data.value.doc.part];
          files := files + [entry.name];
        } else {
          assert entry in entries;
          assert BrokenPart(disk.Tree(), dir, entry.name);
          return Err(Undecodable);
        }
      }
      assert entries[..|entries|] == entries;
      AllRead(disk.fs, dir, entries, files, parts);
      NumberOrderIsTotal();
      var sorted := SortSlice(parts, NUMBER_ORDER);
      SortedAscends(disk.Tree(), dir, files, parts, sorted);
      return Ok(sorted);
    }

    /** The digest and the data of a selected part, if it is there under the tag given. */
    method ReadPart(dir: Path, selected: CompletedPart, ghost suffix: string, ghost before: Tree)
      returns (part: Option<(Bytes, Bytes)>)
      requires Valid() && PartDataIsRaw(before, dir) && ValidPartNumber(selected.partNumber)
      requires disk.Tree() - {CombinedPath(dir, suffix)} == before - {CombinedPath(dir, suffix)}
      ensures part.Some? <==> Usable(PartsIn(before, dir), selected)
      ensures part.Some? ==>
                part.value == (TagDigest(selected.etag).value, PartsIn(before, dir)[selected.partNumber].data)
    {
      PartFiles(before, disk.Tree(), dir, suffix, selected.partNumber);
      var metadata := disk.ReadFile(PartMetadataPath(dir, selected.partNumber));
      if !(metadata.Some? && metadata.value.Json? && metadata.value.doc.PartDoc?
        && metadata.value.doc.part.etag == selected.etag) {
        return None;
      }
      var partHash := TagDigest(selected.etag);
      if partHash.None? {
        return None;
      }
      var content := disk.ReadFile(PartDataPath(dir, selected.partNumber));
      if content.None? {
        return None;
      }
      return Some((partHash.value, content.value.bytes));
    }

    /** Append one selected part's data, if it is there under the tag given, and find the digest the tag spells. */
    method AppendPart(dir: Path, combined: Inode, ghost suffix: string, selected: CompletedPart, ghost before: Tree,
                      ghost data: Bytes)
      returns (partHash: Option<Bytes>, ghost content: Bytes)
      requires Valid() && PartDataIsRaw(before, dir) && ValidPartNumber(selected.partNumber)
      requires CombinedPath(dir, suffix) in disk.fs.names && disk.fs.names[CombinedPath(dir, suffix)] == combined
      requires disk.Tree() == before[CombinedPath(dir, suffix) := Raw(data)]
      modifies disk
      ensures Valid() && disk.fs.names == old(disk.fs.names) && disk.fs.dirs == old(disk.fs.dirs)
      ensures OnlyAt(CombinedPath(dir, suffix), before, old(disk.reached), disk.reached)
      ensures partHash.Some? <==> Usable(PartsIn(before, dir), selected)
      ensures partHash.Some? ==> partHash == TagDigest(selected.etag)
                                 && content == PartsIn(before, dir)[selected.partNumber].data
      ensures disk.Tree() == before[CombinedPath(dir, suffix) := Raw(if partHash.Some? then data + content else data)]
    {
      WriteElsewhere(before, CombinedPath(dir, suffix), Raw(data));
      content := [];
      var part := ReadPart(dir, selected, suffix, before);
      if part.None? {
        return None, content;
      }
      disk.Write(combined, CombinedPath(dir, suffix), part.value.1);
      content := part.value.1;
      WriteElsewhere(before, CombinedPath(dir, suffix), Raw(data + content));
      UpdateTwice(before, CombinedPath(dir, suffix), Raw(data), Raw(data + content));
      return Some(part.value.0), content;
    }

    /** Append the selected parts' data to the combined file and collect the digests their tags spell, until some part
        does not do. */
    method CombineParts(dir: Path, combined: Inode, suffix: string, sorted: seq<CompletedPart>, ghost before: Tree)
      returns (ok: bool, digests: Bytes, ghost data: Bytes)
      requires Valid() && PartDataIsRaw(before, dir) && SortedBy(SELECTION_ORDER, sorted) && sorted != []
      requires CombinedPath(dir, suffix) in disk.fs.names && disk.fs.names[CombinedPath(dir, suffix)] == combined
      requires disk.Tree() == before[CombinedPath(dir, suffix) := Raw([])]
      modifies disk
      ensures Valid() && disk.fs.names == old(disk.fs.names) && disk.fs.dirs == old(disk.fs.dirs)
      ensures disk.Tree() == before[CombinedPath(dir, suffix) := Raw(data)]
      ensures OnlyAt(CombinedPath(dir, suffix), before, old(disk.reached), disk.reached)
      ensures ok ==> Selectable(PartsIn(before, dir), sorted) && data == Assembled(PartsIn(before, dir), sorted)
                     && digests == DigestsUpTo(PartsIn(before, dir), PartNumbers(sorted), MAX_PART_NUMBER)
      ensures !ok ==> forall completed :: multiset(sorted) == multiset(completed) ==>
              !Selectable(PartsIn(before, dir), completed)
    {
      ghost var parts, path := PartsIn(before, dir), CombinedPath(dir, suffix);
      var previous := 0;
      digests, data := [], [];
      GatherNone(parts, sorted);
      for i := 0 to |sorted|
        invariant Valid() && disk.fs.names == old(disk.fs.names) && disk.fs.dirs == old(disk.fs.dirs)
        invariant disk.Tree() == before[path := Raw(data)]
        invariant Gathered(parts, sorted, i, previous, data, digests)
        invariant OnlyAt(path, before, old(disk.reached), disk.reached)
      {
        WriteElsewhere(before, path, Raw(data));
        var selected := sorted[i];
        if !ValidPartNumber(selected.partNumber) || selected.partNumber == previous {
          SpoiledInAnyOrder(parts, sorted, i);
          return false, digests, data;
        }
        ghost var content;
        var partHash;
        partHash, content := AppendPart(dir, combined, suffix, selected, before, data);
        if partHash.None? {
          SpoiledInAnyOrder(parts, sorted, i);
          return false, digests, data;
        }
        GatherOne(parts, sorted, i, previous, data, digests);
        previous, digests, data := selected.partNumber, digests + partHash.value, data + content;
      }
      GatheredAll(parts, sorted, previous, data, digests);
      ok := true;
    }

    /** Sort the selection and combine its parts in a new file, which goes again if some part does not do. */
    method Combine(dir: Path, completed: seq<CompletedPart>, suffix: string)
      returns (ok: bool, combined: Inode, digests: Bytes, ghost data: Bytes)
      requires Valid() && PartDataIsRaw(disk.Tree(), dir) && dir in disk.fs.dirs && completed != []
      requires CombinedPath(dir, suffix) !in disk.Tree()
      modifies disk
      ensures Valid() && disk.fs.dirs == old(disk.fs.dirs)
      ensures OnlyAt(CombinedPath(dir, suffix), old(disk.Tree()), old(disk.reached), disk.reached)
      ensures ok <==> Selectable(PartsIn(old(disk.Tree()), dir), completed)
      ensures !ok ==> disk.Tree() == old(disk.Tree())
      ensures ok ==> disk.Tree() == old(disk.Tree())[CombinedPath(dir, suffix) := Raw(data)]
                     && CombinedPath(dir, suffix) in disk.fs.names
                     && disk.fs.names[CombinedPath(dir, suffix)] == combined
      ensures ok ==> var parts := PartsIn(old(disk.Tree()), dir);
                     && data == Assembled(parts, completed)
                     && digests == DigestsUpTo(parts, PartNumbers(completed), MAX_PART_NUMBER)
    {
      ghost var before, path := disk.Tree(), CombinedPath(dir, suffix);
      SelectionOrderIsTotal();
      var sorted := SortSlice(completed, SELECTION_ORDER);
      var combinedPath;
      combinedPath, combined := disk.CreateTemp(dir, ".combined-" + suffix);
      DropTemporary(before, path, Raw([]));
      ok, digests, data := CombineParts(dir, combined, suffix, sorted, before);
      DropTemporary(before, path, Raw(data));
      if !ok {
        var _ := disk.Remove(combinedPath);
        return;
      }
      PermutedSelection(PartsIn(before, dir), sorted, completed);
      PermutedNumbers(sorted, completed);
      PermutedNumbers(completed, sorted);
      assert PartNumbers(sorted) == PartNumbers(completed);
    }

    /** The rest of a completion once the parts are combined: put the object, give it the composite tag, and remove the
        upload, the combined file with it. */
    method FinishCompletion(bucket: string, key: string, id: string, meta: ObjectMeta, etag: string, now: int,
                            combined: Inode, combinedSuffix: string, suffix: string, ghost data: Bytes,
                            ghost before: Tree)
      returns (r: Result<ObjectMeta>)
      requires Valid() && HasBucket(before, bucket) && TempPath(bucket, suffix) !in before
      requires CombinedPath(UploadDir(h, bucket, id), combinedSuffix) in disk.fs.names
      requires disk.fs.names[CombinedPath(UploadDir(h, bucket, id), combinedSuffix)] == combined
      requires disk.Tree() == before[CombinedPath(UploadDir(h, bucket, id), combinedSuffix) := Raw(data)]
      modifies disk
      ensures Valid()
      ensures var final := Object(data, StoredMeta(h, key, data, meta, now).(etag := etag));
              && r == Ok(final.meta)
              && disk.Tree() == CompleteTree(h, before, bucket, key, UploadDir(h, bucket, id), final)
              && CompleteStages(h, before, bucket, key, UploadDir(h, bucket, id), combinedSuffix, suffix, final,
                                old(disk.reached), disk.reached)
      ensures var dirs := old(disk.fs.dirs) + Ancestors(ObjectsDir(bucket)) + Ancestors(MetadataDir(bucket));
              disk.fs.dirs == set d | d in dirs && !Under(UploadDir(h, bucket, id), d)
    {
      ghost var dir, ready := UploadDir(h, bucket, id), disk.Tree();
      ghost var path, tmp := CombinedPath(dir, combinedSuffix), TempPath(bucket, suffix);
      ghost var final := Object(data, StoredMeta(h, key, data, meta, now).(etag := etag));
      CombinedIsNoTemporary(h, bucket, id, combinedSuffix, suffix);
      assert ready[path] == disk.fs.inodes[combined];
      var content := disk.ReadAll(combined);
      ConcatOne(content);
      var put := backend.PutObject(bucket, key, Body([content], false), meta, now, suffix);
      assert ObjectFrom(h, key, Body([content], false), meta, now) == WithPlainTag(h, final);
      PutIsHead(h, ready, bucket, key, WithPlainTag(h, final));
      ghost var r1 := disk.reached;
      var stored := backend.HeadObject(bucket, key);
      var tagged := stored.value.(etag := etag);
      backend.metaStore.PutMetadata(bucket, key, tagged);
      PutAgain(h, ready, bucket, key, final);
      ghost var r2 := disk.reached;
      assert disk.Tree() == PutTree(h, ready, bucket, key, final);
      disk.RemoveAll(UploadDir(h, bucket, id));
      CombinedGoesToo(h, before, bucket, key, dir, combinedSuffix, Raw(data), final);
      LastStages(h, before, bucket, key, dir, combinedSuffix, suffix, final, old(disk.reached), r1, r2, disk.reached);
      var _ := disk.Remove(UploadDir(h, bucket, id) + [".combined-" + combinedSuffix]);
      assert RemovalStage(PutTree(h, ready, bucket, key, final), dir, disk.Tree());
      return Ok(tagged);
    }

    method CompleteMultipartUpload(bucket: string, key: string, id: string, completed: seq<CompletedPart>, now: int,
                                   combinedSuffix: string, suffix: string)
      returns (r: Result<ObjectMeta>)
      requires Valid() && (HasBucket(disk.Tree(), bucket) ==> PartDataIsRaw(disk.Tree(), UploadDir(h, bucket, id)))
      requires CombinedPath(UploadDir(h, bucket, id), combinedSuffix) !in disk.Tree()
               && TempPath(bucket, suffix) !in disk.Tree()
      modifies disk
      ensures Valid()
      ensures r == CompleteResult(h, old(disk.Tree()), bucket, key, id, completed, now)
      ensures disk.Tree() == if r.Err? then old(disk.Tree())
                             else CompleteTree(h, old(disk.Tree()), bucket, key, UploadDir(h, bucket, id),
                                               CompletionAt(h, old(disk.Tree()), bucket, key, id, completed, now))
      ensures r.Ok? <==>
              UploadAt(h, old(disk.Tree()), bucket, key, id).Ok?
                && MayBeJoined(PartsIn(old(disk.Tree()), UploadDir(h, bucket, id)), completed)
                && forall i :: 0 <= i < |completed| ==> TagDigest(completed[i].etag).Some?
      ensures r.Ok? ==>
                && At(disk.Tree(), MetadataPath(h, bucket, key)) == Some(Json(MetaDoc(r.value)))
                && exists data ::
                     && At(disk.Tree(), ObjectPath(h, bucket, key)) == Some(Raw(data))
                     && IsJoined(h, key, UploadAt(h, old(disk.Tree()), bucket, key, id).value.meta,
                                 PartsIn(old(disk.Tree()), UploadDir(h, bucket, id)), completed, now,
                                 Object(data, r.value))
      ensures var dirs := old(disk.fs.dirs) + Ancestors(ObjectsDir(bucket)) + Ancestors(MetadataDir(bucket));
              disk.fs.dirs ==
              if r.Err? then old(disk.fs.dirs) else set d | d in dirs && !Under(UploadDir(h, bucket, id), d)
      ensures UploadAt(h, old(disk.Tree()), bucket, key, id).Err? ==> disk.reached == old(disk.reached)
      ensures UploadAt(h, old(disk.Tree()), bucket, key, id).Ok? ==>
                var o := CompletionAt(h, old(disk.Tree()), bucket, key, id, completed, now);
                CompleteStages(h, old(disk.Tree()), bucket, key, UploadDir(h, bucket, id), combinedSuffix, suffix, o,
                               old(disk.reached), disk.reached)
    {
      var upload := ReadUpload(bucket, key, id);
      if upload.Err? {
        return Err(upload.error);
      }
      ghost var before, dir := disk.Tree(), UploadDir(h, bucket, id);
      ghost var final := CompletionAt(h, before, bucket, key, id, completed, now);
      SelectableMayBeJoined(PartsIn(before, dir), completed);
      if completed == [] {
        return Err(InvalidPart);
      }
      var ok, combined, digests, data := Combine(UploadDir(h, bucket, id), completed, combinedSuffix);
      if !ok {
        FailedStages(h, before, bucket, key, dir, combinedSuffix, suffix, final, old(disk.reached), disk.reached);
        return Err(InvalidPart);
      }
      var etag := Quoted(Hex(h.md5(digests)) + "-" + Itoa(|completed|));
      assert final == Object(data, StoredMeta(h, key, data, upload.value.meta, now).(etag := etag));
      ghost var r0 := disk.reached;
      r := FinishCompletion(bucket, key, id, upload.value.meta, etag, now,
                            combined, combinedSuffix, suffix, data, before);
      CompletionStays(h, before, bucket, key, id, final);
      CompletedIsJoined(h, key, upload.value.meta, PartsIn(before, dir), completed, now);
      EarlierStages(h, before, bucket, key, dir, combinedSuffix, suffix, final, old(disk.reached), r0, disk.reached);
    }
  }

  /** The object stays when the upload goes. */
  lemma CompletionStays(h: Hashes, t: Tree, bucket: string, key: string, id: string, o: Object)
    ensures var t' := CompleteTree(h, t, bucket, key, UploadDir(h, bucket, id), o);
            && At(t', ObjectPath(h, bucket, key)) == Some(Raw(o.data))
            && At(t', MetadataPath(h, bucket, key)) == Some(Json(MetaDoc(o.meta)))
  {
    TempIsElsewhere(h, bucket, key, "");
    var n, dir := |BucketPath(bucket)|, UploadDir(h, bucket, id);
    NotUnder(dir, ObjectPath(h, bucket, key), n);
    NotUnder(dir, MetadataPath(h, bucket, key), n);
  }

  lemma NotUnder(dir: Path, p: Path, n: nat)
    requires n < |dir| && n < |p| && dir[n] != p[n]
    ensures !Under(dir, p)
  {
    if |dir| <= |p| {
      assert p[..|dir|][n] == p[n];
    }
  }

  lemma PartIsThere(t: Tree, dir: Path, part: Part)
    requires part.info.partNumber >= 0
    ensures PartAt(PartTree(t, dir, part), dir, part.info.partNumber) == Some(part)
  {
    UploadFileNamesDiffer(part.info.partNumber, part.info.partNumber);
    var p, q := PartDataPath(dir, part.info.partNumber), PartMetadataPath(dir, part.info.partNumber);
    assert p[|dir|] != q[|dir|];
  }

  /** What reading the part files among some directory entries has found so far. */
  ghost predicate PartsRead(t: Tree, dir: Path, entries: seq<DirEntry>, files: seq<string>, parts: seq<MultipartPart>)
  {
    && |files| == |parts| && (forall j, k :: 0 <= j < k < |files| ==> files[j] != files[k])
    && (forall j :: 0 <= j < |files| ==>
          DirEntry(files[j], false) in entries && DescribesPart(t, dir, files[j], parts[j]))
    && (forall name, p :: DirEntry(name, false) in entries && DescribesPart(t, dir, name, p) ==> p in parts)
    && (forall name :: DirEntry(name, false) in entries ==> !BrokenPart(t, dir, name))
  }

  lemma SkipEntry(t: Tree, dir: Path, entries: seq<DirEntry>, files: seq<string>, parts: seq<MultipartPart>,
                  entry: DirEntry)
    requires PartsRead(t, dir, entries, files, parts) && (entry.isDir || !IsPartMetadataName(entry.name))
    ensures PartsRead(t, dir, entries + [entry], files, parts)
  {
  }

  lemma ReadEntry(t: Tree, dir: Path, entries: seq<DirEntry>, files: seq<string>, parts: seq<MultipartPart>,
                  entry: DirEntry, part: MultipartPart)
    requires PartsRead(t, dir, entries, files, parts) && !entry.isDir && entry !in entries
    requires DescribesPart(t, dir, entry.name, part)
    ensures PartsRead(t, dir, entries + [entry], files + [entry.name], parts + [part])
  {
  }

  lemma AllRead(fs: FS, dir: Path, entries: seq<DirEntry>, files: seq<string>, parts: seq<MultipartPart>)
    requires Sound(fs) && Lists(fs, dir, entries) && PartsRead(View(fs), dir, entries, files, parts)
    ensures forall name, p :: DescribesPart(View(fs), dir, name, p) ==> p in parts
    ensures forall name :: !BrokenPart(View(fs), dir, name)
  {
    forall name | dir + [name] in View(fs)
      ensures DirEntry(name, false) in entries
    {
      assert DirEntry(name, false) in entries <==> dir + [name] in fs.names;
    }
  }

  const NUMBER_ORDER := (a: MultipartPart, b: MultipartPart) => a.partNumber <= b.partNumber

  lemma NumberOrderIsTotal()
    ensures Total(NUMBER_ORDER) && Transitive(NUMBER_ORDER)
  {
  }

  lemma SortedAscends(t: Tree, dir: Path, files: seq<string>, parts: seq<MultipartPart>, sorted: seq<MultipartPart>)
    requires NumbersAreApart(t, dir) && |files| == |parts|
    requires forall j, k :: 0 <= j < k < |files| ==> files[j] != files[k]
    requires forall j :: 0 <= j < |files| ==> DescribesPart(t, dir, files[j], parts[j])
    requires forall name, p :: DescribesPart(t, dir, name, p) ==> p in parts
    requires SortedBy(NUMBER_ORDER, sorted) && multiset(sorted) == multiset(parts)
    ensures AscendingNumbers(sorted)
    ensures forall p :: p in sorted <==> exists name :: DescribesPart(t, dir, name, p)
  {
    forall p
      ensures p in sorted <==> exists name :: DescribesPart(t, dir, name, p)
    {
      SameMembers(sorted, parts, p);
      if p in parts {
        var i :| 0 <= i < |parts| && parts[i] == p;
        assert DescribesPart(t, dir, files[i], p);
      }
    }
    assert Distinct(parts) by {
      forall i, j | 0 <= i < j < |parts|
        ensures parts[i] != parts[j]
      {
        assert DescribesPart(t, dir, files[i], parts[i]) && DescribesPart(t, dir, files[j], parts[j]);
      }
    }
    PermutationOfDistinct(parts, sorted);
    forall i, j | 0 <= i < j < |sorted|
      ensures sorted[i].partNumber < sorted[j].partNumber
    {
      assert NUMBER_ORDER(sorted[i], sorted[j]);
      assert sorted[i] in sorted && sorted[j] in sorted;
      var a :| DescribesPart(t, dir, a, sorted[i]);
      var b :| DescribesPart(t, dir, b, sorted[j]);
    }
  }

  /** Everything reached from `r0` to `r1` differs from `before` at most in the file `path`. */
  ghost predicate OnlyAt(path: Path, before: Tree, r0: set<Tree>, r1: set<Tree>)
  {
    forall t :: t in r1 ==> t in r0 || t - {path} == before - {path}
  }

  /** The combined file stands next to the parts and hides none of them. */
  lemma PartFiles(before: Tree, t: Tree, dir: Path, suffix: string, n: nat)
    requires ValidPartNumber(n) && t - {CombinedPath(dir, suffix)} == before - {CombinedPath(dir, suffix)}
    ensures At(t, PartMetadataPath(dir, n)) == At(before, PartMetadataPath(dir, n))
    ensures At(t, PartDataPath(dir, n)) == At(before, PartDataPath(dir, n))
    ensures n in PartsIn(before, dir) <==> PartAt(before, dir, n).Some?
    ensures n in PartsIn(before, dir) ==> PartsIn(before, dir)[n] == PartAt(before, dir, n).value
  {
    TemporaryIsNoPart(dir, ".combined-" + suffix, n);
    var c, p, q := CombinedPath(dir, suffix), PartMetadataPath(dir, n), PartDataPath(dir, n);
    assert p in t <==> p in t - {c};
    assert q in t <==> q in t - {c};
    assert p in before <==> p in before - {c};
    assert q in before <==> q in before - {c};
    assert p in t ==> t[p] == (t - {c})[p] == (before - {c})[p];
    assert q in t ==> t[q] == (t - {c})[q] == (before - {c})[q];
  }

  /** A completion that is refused has touched nothing but its combined file. */
  lemma FailedStages(h: Hashes, before: Tree, bucket: string, key: string, dir: Path, combinedSuffix: string,
                     suffix: string, final: Object, r0: set<Tree>, r1: set<Tree>)
    requires CombinedPath(dir, combinedSuffix) !in before && OnlyAt(CombinedPath(dir, combinedSuffix), before, r0, r1)
    ensures CompleteStages(h, before, bucket, key, dir, combinedSuffix, suffix, final, r0, r1)
  {
    assert before - {CombinedPath(dir, combinedSuffix)} == before;
  }

  /** Stages before the parts are combined are stages of the completion too. */
  lemma EarlierStages(h: Hashes, before: Tree, bucket: string, key: string, dir: Path, combinedSuffix: string,
                      suffix: string, final: Object, r0: set<Tree>, r1: set<Tree>, r2: set<Tree>)
    requires CombinedPath(dir, combinedSuffix) !in before && OnlyAt(CombinedPath(dir, combinedSuffix), before, r0, r1)
    requires CompleteStages(h, before, bucket, key, dir, combinedSuffix, suffix, final, r1, r2)
    ensures CompleteStages(h, before, bucket, key, dir, combinedSuffix, suffix, final, r0, r2)
  {
    FailedStages(h, before, bucket, key, dir, combinedSuffix, suffix, final, r0, r1);
  }

  /** The stages of a completion, from those of its last four steps. */
  lemma LastStages(h: Hashes, before: Tree, bucket: string, key: string, dir: Path, combinedSuffix: string,
                   suffix: string, final: Object, r0: set<Tree>, r1: set<Tree>, r2: set<Tree>, r3: set<Tree>)
    requires var ready := before[CombinedPath(dir, combinedSuffix) := Raw(final.data)];
             var put := WithPlainTag(h, final);
             && PutStages(h, ready, bucket, key, TempPath(bucket, suffix), put, r0, r1)
             && r2 == r1 + {PutTree(h, ready, bucket, key, put)[MetadataPath(h, bucket, key) := Raw([])],
                            PutTree(h, ready, bucket, key, final)}
             && forall t :: t in r3 ==> t in r2 || RemovalStage(PutTree(h, ready, bucket, key, final), dir, t)
    ensures CompleteStages(h, before, bucket, key, dir, combinedSuffix, suffix, final, r0, r3)
  {
    var ready := before[CombinedPath(dir, combinedSuffix) := Raw(final.data)];
    assert RemovalStage(PutTree(h, ready, bucket, key, final), dir, PutTree(h, ready, bucket, key, final));
  }

  lemma CombinedIsNoTemporary(h: Hashes, bucket: string, id: string, combinedSuffix: string, suffix: string)
    ensures CombinedPath(UploadDir(h, bucket, id), combinedSuffix) != TempPath(bucket, suffix)
  {
    assert |CombinedPath(UploadDir(h, bucket, id), combinedSuffix)| == |TempPath(bucket, suffix)| + 1;
  }

  lemma PutIsHead(h: Hashes, t: Tree, bucket: string, key: string, o: Object)
    requires HasBucket(t, bucket)
    ensures HeadAt(h, PutTree(h, t, bucket, key, o), bucket, key) == Ok(o.meta)
  {
  }

  lemma PutAgain(h: Hashes, t: Tree, bucket: string, key: string, o: Object)
    ensures WithMetadata(h, PutTree(h, t, bucket, key, WithPlainTag(h, o)), bucket, key, o.meta) ==
            PutTree(h, t, bucket, key, o)
  {
  }

  lemma CombinedGoesToo(h: Hashes, before: Tree, bucket: string, key: string, dir: Path, combinedSuffix: string,
                        c: Content, o: Object)
    ensures var path := CombinedPath(dir, combinedSuffix);
            && Without(PutTree(h, before[path := c], bucket, key, o), dir) ==
              CompleteTree(h, before, bucket, key, dir, o)
            && CompleteTree(h, before, bucket, key, dir, o) - {path} == CompleteTree(h, before, bucket, key, dir, o)
  {
    assert Under(dir, CombinedPath(dir, combinedSuffix));
  }

  lemma TemporaryIsNoPart(dir: Path, name: string, n: nat)
    requires name != "" && name[0] == '.'
    ensures dir + [name] != PartDataPath(dir, n) && dir + [name] != PartMetadataPath(dir, n)
    ensures Parent(PartDataPath(dir, n)) == dir && Parent(PartMetadataPath(dir, n)) == dir
  {
    var k := |dir|;
    assert (dir + [name])[k] == name;
    assert PartDataPath(dir, n)[k][0] == 'p' && PartMetadataPath(dir, n)[k][0] == 'p';
  }
}
