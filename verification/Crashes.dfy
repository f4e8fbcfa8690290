/** Crashes between file-system steps: what renames and completions leave behind. */
module Crashes {
  import opened Types
  import opened BucketNames
  import opened Layout
  import opened FileSystem
  import opened ObjectStore
  import opened Multipart
  import opened Trees
  import opened Refinement
  import opened Preservation

  /** The object can be read at the key: its data and all that its metadata says of its content. */
  predicate Readable(h: Hashes, t: Tree, b: string, k: string, o: Object)
  {
    && At(t, ObjectPath(h, b, k)) == Some(Raw(o.data))
    && match At(t, MetadataPath(h, b, k))
       case Some(Json(MetaDoc(meta))) =>
         meta.contentLength == |o.data| && meta.contentType == o.meta.contentType
           && meta.userMetadata == o.meta.userMetadata
       case _ => false
  }

  lemma NotAt(t: Tree, tmp: Path, p: Path)
    requires p != tmp
    ensures At(t - {tmp}, p) == At(t, p)
  {
  }

  /** A put that stops anywhere has touched no file but its object's two and its temporary one. */
  lemma PutStageSpares(h: Hashes, used: set<string>, before: Tree, b: string, k: string, suffix: string, o: Object,
                       t: Tree, f: FileId)
    requires Collisionless(h, used) && Known(f, used) && ValidBucketName(b) && k in used
    requires f != ObjectData(b, k) && f != ObjectMetadata(b, k) && f != ObjectStray(b, suffix)
    requires PutStage(h, before, b, k, TempPath(b, suffix), o, t)
    ensures At(t, PathOf(h, f)) == At(before, PathOf(h, f))
  {
    Elsewhere(h, used, f, ObjectStray(b, suffix));
    NotAt(t, TempPath(b, suffix), PathOf(h, f));
    Elsewhere(h, used, f, ObjectData(b, k));
    Elsewhere(h, used, f, ObjectMetadata(b, k));
  }

  // ----- what a request cut short leaves to the next server -----

  /** The store with a put's temporary file as a stray, if the file is there. */
  function LeftBehind(s: Store, b: string, suffix: string, t: Tree): Store
    requires b in s
  {
    if TempPath(b, suffix) in t then WithStray(s, b, suffix, t[TempPath(b, suffix)]) else s
  }

  lemma TemporaryAside(h: Hashes, used: set<string>, base: Tree, s: Store, b: string, suffix: string, t: Tree)
    requires Represents(h, used, base, s) && b in s && t - {TempPath(b, suffix)} == base
    ensures Represents(h, used, t, LeftBehind(s, b, suffix, t))
  {
    var tmp := TempPath(b, suffix);
    if tmp in t {
      PutBack(t, tmp);
      StrayRepresents(h, used, base, s, b, suffix, t[tmp]);
    } else {
      assert t == base;
    }
  }

  /** A put that stops before its file is in place, or after its metadata is, leaves a tree that stands for a store: the
      old one or the new one, with at most a stray.  A server started on it goes on from there. */
  lemma StoppedPutStands(h: Hashes, used: set<string>, before: Tree, s: Store, b: string, k: string, suffix: string,
                         o: Object, t: Tree)
    requires Represents(h, used, before, s) && b in s && k in used && SoundObject(k, o)
    requires PutStage(h, before, b, k, TempPath(b, suffix), o, t)
    ensures t - {TempPath(b, suffix)} == before ==> Represents(h, used, t, LeftBehind(s, b, suffix, t))
    ensures t - {TempPath(b, suffix)} == PutTree(h, before, b, k, o) ==>
              Represents(h, used, t, LeftBehind(WithObject(s, b, k, o), b, suffix, t))
  {
    PutRepresents(h, used, before, s, b, k, o);
    if t - {TempPath(b, suffix)} == before {
      TemporaryAside(h, used, before, s, b, suffix, t);
    }
    if t - {TempPath(b, suffix)} == PutTree(h, before, b, k, o) {
      TemporaryAside(h, used, PutTree(h, before, b, k, o), WithObject(s, b, k, o), b, suffix, t);
    }
  }

  /** So does a completion that stops while it combines the parts: the upload is as it was, with a stray. */
  lemma StoppedCompletionStands(h: Hashes, used: set<string>, before: Tree, s: Store, b: string, id: string,
                                combinedSuffix: string, t: Tree)
    requires Represents(h, used, before, s) && b in s && id in s[b].uploads
    requires var combined := CombinedPath(UploadDir(h, b, id), combinedSuffix);
             combined in t && t - {combined} == before
    ensures Represents(h, used, t, WithUploadStray(s, b, id, "combined-" + combinedSuffix,
                                                   t[CombinedPath(UploadDir(h, b, id), combinedSuffix)]))
  {
    var combined := CombinedPath(UploadDir(h, b, id), combinedSuffix);
    CombinedIsDotted(UploadDir(h, b, id), combinedSuffix);
    UploadStrayRepresents(h, used, before, s, b, id, "combined-" + combinedSuffix, t[combined]);
    PutBack(t, combined);
  }

  lemma PutBack(t: Tree, p: Path)
    requires p in t
    ensures (t - {p})[p := t[p]] == t
  {
  }

  /** And one that stops while the combined file is copied to its place, with one stray more. */
  lemma StoppedCombinedPutStands(h: Hashes, used: set<string>, ready: Tree, s: Store, b: string, id: string,
                                 combinedSuffix: string, suffix: string, t: Tree)
    requires b in s && id in s[b].uploads && CombinedPath(UploadDir(h, b, id), combinedSuffix) in ready
    requires var combined := CombinedPath(UploadDir(h, b, id), combinedSuffix);
             Represents(h, used, ready - {combined}, s) && t - {TempPath(b, suffix)} == ready
    ensures var combined := CombinedPath(UploadDir(h, b, id), combinedSuffix);
            var s' := WithUploadStray(s, b, id, "combined-" + combinedSuffix, ready[combined]);
            Represents(h, used, t, LeftBehind(s', b, suffix, t))
  {
    var combined := CombinedPath(UploadDir(h, b, id), combinedSuffix);
    StoppedCompletionStands(h, used, ready - {combined}, s, b, id, combinedSuffix, ready);
    TemporaryAside(h, used, ready, WithUploadStray(s, b, id, "combined-" + combinedSuffix, ready[combined]), b,
      suffix, t);
  }

  // ----- renames -----

  lemma CopyIsReadable(h: Hashes, t: Tree, b: string, k: string, source: Object, now: int)
    requires source.meta.contentType != ""
    ensures Readable(h, PutTree(h, t, b, k, CopyOf(h, source, k, now)), b, k, source)
  {
    TempIsElsewhere(h, b, k, "");
  }

  lemma SourceOutlivesCopy(h: Hashes, used: set<string>, before: Tree, b: string, k: string, b': string, k': string,
                           suffix: string, source: Object, copy: Object, t: Tree)
    requires Collisionless(h, used) && ValidBucketName(b) && ValidBucketName(b') && k in used && k' in used
             && (b != b' || k != k')
    requires Readable(h, before, b, k, source) && PutStage(h, before, b', k', TempPath(b', suffix), copy, t)
    ensures Readable(h, t, b, k, source)
  {
    PutStageSpares(h, used, before, b', k', suffix, copy, t, ObjectData(b, k));
    PutStageSpares(h, used, before, b', k', suffix, copy, t, ObjectMetadata(b, k));
  }

  lemma CopyOutlivesDelete(h: Hashes, used: set<string>, t: Tree, b: string, k: string, b': string, k': string,
                           source: Object, t': Tree)
    requires Collisionless(h, used) && ValidBucketName(b) && ValidBucketName(b') && k in used && k' in used
             && (b != b' || k != k')
    requires Readable(h, t, b', k', source) && DeleteStage(h, t, b, k, t')
    ensures Readable(h, t', b', k', source)
  {
    Elsewhere(h, used, ObjectData(b', k'), ObjectData(b, k));
    Elsewhere(h, used, ObjectData(b', k'), ObjectMetadata(b, k));
    Elsewhere(h, used, ObjectMetadata(b', k'), ObjectData(b, k));
    Elsewhere(h, used, ObjectMetadata(b', k'), ObjectMetadata(b, k));
  }

  lemma StoredIsReadable(h: Hashes, used: set<string>, t: Tree, s: Store, b: string, k: string)
    requires Represents(h, used, t, s) && b in s && k in s[b].objects
    ensures k in used && ValidBucketName(b) && s[b].objects[k].meta.contentType != ""
    ensures ObjectAt(h, t, b, k) == Ok(s[b].objects[k]) && Readable(h, t, b, k, s[b].objects[k])
  {
    assert SoundBucket(h, used, s[b]);
    assert SoundObject(k, s[b].objects[k]);
    ValidNamesAreSafe(b);
    ObjectsAreFound(h, used, t, s, b, k);
    FileHolds(h, used, t, s, ObjectData(b, k));
    FileHolds(h, used, t, s, ObjectMetadata(b, k));
  }

  /** Wherever a rename stops, the object can be read in full at its source or at its destination. */
  lemma RenameLosesNothing(h: Hashes, used: set<string>, before: Tree, s: Store, b: string, k: string, b': string,
                           k': string, now: int, suffix: string, r0: set<Tree>, r1: set<Tree>, t: Tree)
    requires Represents(h, used, before, s) && b in s && k in s[b].objects && b' in s && k' in used
             && (b != b' || k != k')
    requires RenameStages(h, before, b, k, b', k', now, TempPath(b', suffix), r0, r1) && t in r1 && t !in r0
    ensures Readable(h, t, b, k, s[b].objects[k]) || Readable(h, t, b', k', s[b].objects[k])
  {
    var source := s[b].objects[k];
    StoredIsReadable(h, used, before, s, b, k);
    var copy := CopyOf(h, source, k', now);
    if PutStage(h, before, b', k', TempPath(b', suffix), copy, t) {
      SourceOutlivesCopy(h, used, before, b, k, b', k', suffix, source, copy, t);
    } else {
      CopyIsReadable(h, before, b', k', source, now);
      CopyOutlivesDelete(h, used, PutTree(h, before, b', k', copy), b, k, b', k', source, t);
    }
  }

  // ----- completions -----

  predicate Matters(f: FileId, b: string, id: string)
  {
    f == BucketRecord(b) || (OfUpload(f, b, id) && !IsStray(f))
  }

  /** Every file of the upload but strays, and its bucket's record, is as it was. */
  ghost predicate UploadIntact(h: Hashes, before: Tree, b: string, id: string, t: Tree)
  {
    forall f {:trigger PathOf(h, f)} :: Matters(f, b, id) ==> At(t, PathOf(h, f)) == At(before, PathOf(h, f))
  }

  lemma IntactFile(h: Hashes, before: Tree, b: string, id: string, t: Tree, f: FileId)
    requires UploadIntact(h, before, b, id, t) && Matters(f, b, id)
    ensures At(t, PathOf(h, f)) == At(before, PathOf(h, f))
  {
  }

  /** The object and its final metadata are in place. */
  predicate InPlace(h: Hashes, t: Tree, b: string, k: string, o: Object)
  {
    At(t, ObjectPath(h, b, k)) == Some(Raw(o.data)) && At(t, MetadataPath(h, b, k)) == Some(Json(MetaDoc(o.meta)))
  }

  /** Before the upload is removed, a completion touches none of its files. */
  lemma StageSparesUpload(h: Hashes, used: set<string>, before: Tree, b: string, k: string, id: string,
                          combinedSuffix: string, suffix: string, final: Object, t: Tree, f: FileId)
    requires Collisionless(h, used) && ValidBucketName(b) && k in used && id in used && Known(f, used)
    requires Matters(f, b, id)
    requires var dir := UploadDir(h, b, id);
             && CompleteStage(h, before, b, k, dir, CombinedPath(dir, combinedSuffix), TempPath(b, suffix), final, t)
             && !RemovalStage(PutTree(h, before[CombinedPath(dir, combinedSuffix) := Raw(final.data)], b, k, final),
               dir, t)
    ensures At(t, PathOf(h, f)) == At(before, PathOf(h, f))
  {
    var dir := UploadDir(h, b, id);
    var combined, p := CombinedPath(dir, combinedSuffix), PathOf(h, f);
    TemporaryIsNoFile(h, used, f, dir, ".combined-" + combinedSuffix);
    var ready := before[combined := Raw(final.data)];
    assert At(ready, p) == At(before, p);
    NotAt(t, combined, p);
    if PutStage(h, ready, b, k, TempPath(b, suffix), WithPlainTag(h, final), t) {
      PutStageSpares(h, used, ready, b, k, suffix, WithPlainTag(h, final), t, f);
    } else {
      Elsewhere(h, used, f, ObjectData(b, k));
      Elsewhere(h, used, f, ObjectMetadata(b, k));
    }
  }

  /** An intact upload reads as before: its state, its parts, and their data. */
  lemma IntactReadsAlike(h: Hashes, before: Tree, b: string, k: string, id: string, t: Tree)
    requires UploadIntact(h, before, b, id, t)
    ensures UploadAt(h, t, b, k, id) == UploadAt(h, before, b, k, id)
    ensures PartsIn(t, UploadDir(h, b, id)) == PartsIn(before, UploadDir(h, b, id))
    ensures PartDataIsRaw(before, UploadDir(h, b, id)) ==> PartDataIsRaw(t, UploadDir(h, b, id))
  {
    var dir := UploadDir(h, b, id);
    IntactFile(h, before, b, id, t, BucketRecord(b));
    IntactFile(h, before, b, id, t, UploadRecord(b, id));
    forall n: nat
      ensures At(t, PartDataPath(dir, n)) == At(before, PartDataPath(dir, n))
      ensures PartAt(t, dir, n) == PartAt(before, dir, n)
    {
      IntactFile(h, before, b, id, t, PartData(b, id, n));
      IntactFile(h, before, b, id, t, PartMetadata(b, id, n));
    }
  }

  lemma RemovalKeepsObject(h: Hashes, used: set<string>, t: Tree, b: string, k: string, id: string, final: Object,
                           t': Tree)
    requires Collisionless(h, used) && ValidBucketName(b) && k in used && id in used
    requires RemovalStage(PutTree(h, t, b, k, final), UploadDir(h, b, id), t')
    ensures InPlace(h, t', b, k, final)
  {
    TempIsElsewhere(h, b, k, "");
    UnderUpload(h, used, ObjectData(b, k), b, id);
    UnderUpload(h, used, ObjectMetadata(b, k), b, id);
  }

  /** Wherever a completion stops, either the upload and all its parts are intact, or the object and its final metadata
      are in place. */
  lemma CompletionLosesNothing(h: Hashes, used: set<string>, before: Tree, b: string, k: string, id: string,
                               combinedSuffix: string, suffix: string, final: Object, r0: set<Tree>, r1: set<Tree>,
                               t: Tree)
    requires Collisionless(h, used) && ValidBucketName(b) && k in used && id in used
    requires CompleteStages(h, before, b, k, UploadDir(h, b, id), combinedSuffix, suffix, final, r0, r1) && t in r1
             && t !in r0
    ensures UploadIntact(h, before, b, id, t) || InPlace(h, t, b, k, final)
  {
    var dir := UploadDir(h, b, id);
    var ready := before[CombinedPath(dir, combinedSuffix) := Raw(final.data)];
    if RemovalStage(PutTree(h, ready, b, k, final), dir, t) {
      RemovalKeepsObject(h, used, ready, b, k, id, final, t);
    } else {
      forall f | Matters(f, b, id)
        ensures At(t, PathOf(h, f)) == At(before, PathOf(h, f))
      {
        StageSparesUpload(h, used, before, b, k, id, combinedSuffix, suffix, final, t, f);
      }
    }
  }

  /** Completing an intact upload again makes the same object, but for its time, if it makes one. */
  lemma SameCompletion(h: Hashes, before: Tree, b: string, k: string, id: string, completed: seq<CompletedPart>,
                       now: int, later: int, t: Tree)
    requires UploadIntact(h, before, b, id, t) && UploadAt(h, before, b, k, id).Ok?
    ensures UploadAt(h, t, b, k, id).Ok?
    ensures CompleteResult(h, t, b, k, id, completed, later).Ok? <==>
            CompleteResult(h, before, b, k, id, completed, now).Ok?
    ensures CompleteResult(h, t, b, k, id, completed, later).Err? ==>
              CompleteResult(h, t, b, k, id, completed, later) == CompleteResult(h, before, b, k, id, completed, now)
    ensures var o, o' := CompletionAt(h, before, b, k, id, completed, now),
            CompletionAt(h, t, b, k, id, completed, later);
            o'.data == o.data && o'.meta == o.meta.(lastModified := later)
  {
    IntactReadsAlike(h, before, b, k, id, t);
  }

  lemma CompletedIsInPlace(h: Hashes, used: set<string>, t: Tree, b: string, k: string, id: string, o: Object)
    requires Collisionless(h, used) && ValidBucketName(b) && k in used && id in used
    ensures InPlace(h, CompleteTree(h, t, b, k, UploadDir(h, b, id), o), b, k, o)
  {
    var dir := UploadDir(h, b, id);
    assert RemovalStage(PutTree(h, t, b, k, o), dir, CompleteTree(h, t, b, k, dir, o));
    RemovalKeepsObject(h, used, t, b, k, id, o, CompleteTree(h, t, b, k, dir, o));
  }

  /** The completion repeated on what the crash has left, whatever temporary files lie about: it succeeds exactly if the
      one before the crash would have, and puts the same data under the same tag in place; only the time is new. */
  method CompleteAgain(backend: MultipartBackend, ghost used: set<string>, ghost before: Tree, bucket: string,
                       key: string, id: string, completed: seq<CompletedPart>, ghost now: int, later: int,
                       combinedSuffix: string, suffix: string)
    returns (r: Result<ObjectMeta>)
    requires backend.Valid() && Collisionless(backend.h, used) && ValidBucketName(bucket) && key in used && id in used
    requires UploadAt(backend.h, before, bucket, key, id).Ok? && PartDataIsRaw(before, UploadDir(backend.h, bucket, id))
    requires UploadIntact(backend.h, before, bucket, id, backend.disk.Tree())
    requires CombinedPath(UploadDir(backend.h, bucket, id), combinedSuffix) !in backend.disk.Tree()
    requires TempPath(bucket, suffix) !in backend.disk.Tree()
    modifies backend.disk
    ensures backend.Valid()
    ensures var first := CompleteResult(backend.h, before, bucket, key, id, completed, now);
            var o := CompletionAt(backend.h, before, bucket, key, id, completed, now);
            var o' := Object(o.data, o.meta.(lastModified := later));
            && (first.Err? ==> r == first && backend.disk.Tree() == old(backend.disk.Tree()))
            && (first.Ok? ==> r == Ok(o'.meta) && InPlace(backend.h, backend.disk.Tree(), bucket, key, o'))
  {
    ghost var t := backend.disk.Tree();
    IntactReadsAlike(backend.h, before, bucket, key, id, t);
    SameCompletion(backend.h, before, bucket, key, id, completed, now, later, t);
    r := backend.CompleteMultipartUpload(bucket, key, id, completed, later, combinedSuffix, suffix);
    CompletedIsInPlace(backend.h, used, t, bucket, key, id,
      CompletionAt(backend.h, t, bucket, key, id, completed, later));
  }
}
