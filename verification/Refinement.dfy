/** How the file tree stands for the store: one file for every record, object and part, and no others. */
module Refinement {
  import opened Types
  import opened ByteStrings
  import opened BucketNames
  import opened Layout
  import opened FileSystem
  import opened ObjectStore
  import opened Assembly
  import opened Trees

  /** What a file holds when the store is `s`. */
  function Lookup(s: Store, f: FileId): Option<Content>
  {
    if f.bucket !in s then None
    else
      var b := s[f.bucket];
      match f
      case BucketRecord(name) => Some(Json(BucketDoc(name, b.createdAt, REGION)))
      case ObjectData(_, k) => if k in b.objects then Some(Raw(b.objects[k].data)) else None
      case ObjectMetadata(_, k) => if k in b.objects then Some(Json(MetaDoc(b.objects[k].meta))) else None
      case UploadRecord(_, id) => if id in b.uploads then Some(Json(UploadDoc(b.uploads[id].state))) else None
      case PartData(_, id, n) =>
        if id in b.uploads && n in b.uploads[id].parts then Some(Raw(b.uploads[id].parts[n].data)) else None
      case PartMetadata(_, id, n) =>
        if id in b.uploads && n in b.uploads[id].parts then Some(Json(PartDoc(b.uploads[id].parts[n].info))) else None
      case ObjectStray(_, suffix) => if suffix in b.strays then Some(b.strays[suffix]) else None
      case UploadStray(_, id, name) =>
        if id in b.uploads && name in b.uploads[id].strays then Some(b.uploads[id].strays[name]) else None
  }

  /** An object's metadata names its key, gives the length of its data and has a content type. */
  predicate SoundObject(k: string, o: Object)
  {
    o.meta.key == k && o.meta.contentLength == |o.data| && o.meta.contentType != ""
  }

  predicate SoundUpload(h: Hashes, id: string, u: Upload)
  {
    u.state.uploadId == id && SoundParts(h, u.parts)
  }

  predicate SoundBucket(h: Hashes, used: set<string>, b: Bucket)
  {
    && (forall k :: k in b.objects ==> k in used && SoundObject(k, b.objects[k]))
    && (forall id :: id in b.uploads ==> id in used && SoundUpload(h, id, b.uploads[id]))
  }

  ghost predicate SoundStore(h: Hashes, used: set<string>, s: Store)
  {
    forall b :: b in s ==> ValidBucketName(b) && SoundBucket(h, used, s[b])
  }

  ghost predicate Matching(h: Hashes, used: set<string>, t: Tree, s: Store)
  {
    forall f :: Known(f, used) ==> At(t, PathOf(h, f)) == Lookup(s, f)
  }

  ghost predicate IsFile(h: Hashes, used: set<string>, p: Path)
  {
    exists f :: Known(f, used) && PathOf(h, f) == p
  }

  ghost predicate OnlyFiles(h: Hashes, used: set<string>, t: Tree)
  {
    forall p :: p in t ==> IsFile(h, used, p)
  }

  /** The tree holds the store, the whole store and nothing but the store; temporary files that requests cut short have
      left are the store's strays. */
  ghost predicate Represents(h: Hashes, used: set<string>, t: Tree, s: Store)
  {
    Collisionless(h, used) && SoundStore(h, used, s) && Matching(h, used, t, s) && OnlyFiles(h, used, t)
  }

  // ----- reading the tree -----

  lemma FileHolds(h: Hashes, used: set<string>, t: Tree, s: Store, f: FileId)
    requires Represents(h, used, t, s) && Known(f, used)
    ensures At(t, PathOf(h, f)) == Lookup(s, f)
  {
  }

  lemma WhichFile(h: Hashes, used: set<string>, t: Tree, s: Store, p: Path) returns (f: FileId)
    requires Represents(h, used, t, s) && p in t
    ensures Known(f, used) && PathOf(h, f) == p && Lookup(s, f) == Some(t[p])
  {
    assert IsFile(h, used, p);
    f :| Known(f, used) && PathOf(h, f) == p;
    FileHolds(h, used, t, s, f);
  }

  /** Files other than `g` keep off its path. */
  lemma Elsewhere(h: Hashes, used: set<string>, f: FileId, g: FileId)
    requires Collisionless(h, used) && Known(f, used) && Known(g, used) && f != g
    ensures PathOf(h, f) != PathOf(h, g)
  {
    if PathOf(h, f) == PathOf(h, g) {
      PathsAreDistinct(h, used, f, g);
    }
  }

  /** A tree stands for one store only. */
  lemma StoreIsUnique(h: Hashes, used: set<string>, t: Tree, s: Store, s': Store)
    requires Represents(h, used, t, s) && Represents(h, used, t, s')
    ensures s == s'
  {
    SameBuckets(h, used, t, s, s');
    SameBuckets(h, used, t, s', s);
    forall b | b in s
      ensures s[b] == s'[b]
    {
      SameObjects(h, used, t, s, s', b);
      SameObjects(h, used, t, s', s, b);
      SameUploads(h, used, t, s, s', b);
      SameUploads(h, used, t, s', s, b);
      SameStrays(h, used, t, s, s', b);
      SameStrays(h, used, t, s', s, b);
      MapsAgree(s[b].objects, s'[b].objects);
      MapsAgree(s[b].uploads, s'[b].uploads);
      MapsAgree(s[b].strays, s'[b].strays);
    }
  }

  lemma SameBuckets(h: Hashes, used: set<string>, t: Tree, s: Store, s': Store)
    requires Represents(h, used, t, s) && Represents(h, used, t, s')
    ensures forall b :: b in s ==> b in s' && s[b].createdAt == s'[b].createdAt
  {
    forall b | b in s
      ensures b in s' && s[b].createdAt == s'[b].createdAt
    {
      FileHolds(h, used, t, s, BucketRecord(b));
      FileHolds(h, used, t, s', BucketRecord(b));
    }
  }

  lemma SameObjects(h: Hashes, used: set<string>, t: Tree, s: Store, s': Store, b: string)
    requires Represents(h, used, t, s) && Represents(h, used, t, s') && b in s && b in s'
    ensures forall k :: k in s[b].objects ==> k in s'[b].objects && s[b].objects[k] == s'[b].objects[k]
  {
    forall k | k in s[b].objects
      ensures k in s'[b].objects && s[b].objects[k] == s'[b].objects[k]
    {
      assert SoundBucket(h, used, s[b]);
      FileHolds(h, used, t, s, ObjectData(b, k));
      FileHolds(h, used, t, s', ObjectData(b, k));
      FileHolds(h, used, t, s, ObjectMetadata(b, k));
      FileHolds(h, used, t, s', ObjectMetadata(b, k));
    }
  }

  lemma SameStrays(h: Hashes, used: set<string>, t: Tree, s: Store, s': Store, b: string)
    requires Represents(h, used, t, s) && Represents(h, used, t, s') && b in s && b in s'
    ensures forall x :: x in s[b].strays ==> x in s'[b].strays && s[b].strays[x] == s'[b].strays[x]
  {
    forall x | x in s[b].strays
      ensures x in s'[b].strays && s[b].strays[x] == s'[b].strays[x]
    {
      FileHolds(h, used, t, s, ObjectStray(b, x));
      FileHolds(h, used, t, s', ObjectStray(b, x));
    }
  }

  lemma SameUploadStrays(h: Hashes, used: set<string>, t: Tree, s: Store, s': Store, b: string, id: string)
    requires Represents(h, used, t, s) && Represents(h, used, t, s')
    requires b in s && b in s' && id in used && id in s[b].uploads && id in s'[b].uploads
    ensures var strays, strays' := s[b].uploads[id].strays, s'[b].uploads[id].strays;
            forall x :: x in strays ==> x in strays' && strays[x] == strays'[x]
  {
    var strays, strays' := s[b].uploads[id].strays, s'[b].uploads[id].strays;
    forall x | x in strays
      ensures x in strays' && strays[x] == strays'[x]
    {
      FileHolds(h, used, t, s, UploadStray(b, id, x));
      FileHolds(h, used, t, s', UploadStray(b, id, x));
    }
  }

  lemma SameUploads(h: Hashes, used: set<string>, t: Tree, s: Store, s': Store, b: string)
    requires Represents(h, used, t, s) && Represents(h, used, t, s') && b in s && b in s'
    ensures forall id :: id in s[b].uploads ==> id in s'[b].uploads && s[b].uploads[id] == s'[b].uploads[id]
  {
    forall id | id in s[b].uploads
      ensures id in s'[b].uploads && s[b].uploads[id] == s'[b].uploads[id]
    {
      assert SoundBucket(h, used, s[b]);
      SameUpload(h, used, t, s, s', b, id);
    }
  }

  lemma SameUpload(h: Hashes, used: set<string>, t: Tree, s: Store, s': Store, b: string, id: string)
    requires Represents(h, used, t, s) && Represents(h, used, t, s')
    requires b in s && b in s' && id in used && id in s[b].uploads
    ensures id in s'[b].uploads && s[b].uploads[id] == s'[b].uploads[id]
  {
    SameState(h, used, t, s, s', b, id);
    SameParts(h, used, t, s, s', b, id);
    SameParts(h, used, t, s', s, b, id);
    SameUploadStrays(h, used, t, s, s', b, id);
    SameUploadStrays(h, used, t, s', s, b, id);
    MapsAgree(s[b].uploads[id].parts, s'[b].uploads[id].parts);
    MapsAgree(s[b].uploads[id].strays, s'[b].uploads[id].strays);
  }

  lemma MapsAgree<K, V>(a: map<K, V>, b: map<K, V>)
    requires forall k :: k in a ==> k in b && a[k] == b[k]
    requires forall k :: k in b ==> k in a && b[k] == a[k]
    ensures a == b
  {
  }

  lemma SameState(h: Hashes, used: set<string>, t: Tree, s: Store, s': Store, b: string, id: string)
    requires Represents(h, used, t, s) && Represents(h, used, t, s')
    requires b in s && b in s' && id in used && id in s[b].uploads
    ensures id in s'[b].uploads && s[b].uploads[id].state == s'[b].uploads[id].state
  {
    FileHolds(h, used, t, s, UploadRecord(b, id));
    FileHolds(h, used, t, s', UploadRecord(b, id));
  }

  lemma SameParts(h: Hashes, used: set<string>, t: Tree, s: Store, s': Store, b: string, id: string)
    requires Represents(h, used, t, s) && Represents(h, used, t, s')
    requires b in s && b in s' && id in used && id in s[b].uploads && id in s'[b].uploads
    ensures var parts, parts' := s[b].uploads[id].parts, s'[b].uploads[id].parts;
            forall n :: n in parts ==> n in parts' && parts[n] == parts'[n]
  {
    var parts, parts' := s[b].uploads[id].parts, s'[b].uploads[id].parts;
    forall n | n in parts
      ensures n in parts' && parts[n] == parts'[n]
    {
      FileHolds(h, used, t, s, PartData(b, id, n));
      FileHolds(h, used, t, s', PartData(b, id, n));
      FileHolds(h, used, t, s, PartMetadata(b, id, n));
      FileHolds(h, used, t, s', PartMetadata(b, id, n));
    }
  }

  /** An object's data is stored exactly when its metadata is, and the two agree. */
  lemma DataAndMetadataAgree(h: Hashes, used: set<string>, t: Tree, s: Store, b: string, k: string)
    requires Represents(h, used, t, s) && ValidBucketName(b) && k in used
    ensures ObjectPath(h, b, k) in t <==> MetadataPath(h, b, k) in t
    ensures ObjectPath(h, b, k) in t <==> b in s && k in s[b].objects
    ensures ObjectPath(h, b, k) in t ==>
              exists data, meta ::
                t[ObjectPath(h, b, k)] == Raw(data) && t[MetadataPath(h, b, k)] == Json(MetaDoc(meta)) &&
                meta.key == k && meta.contentLength == |data|
  {
    FileHolds(h, used, t, s, ObjectData(b, k));
    FileHolds(h, used, t, s, ObjectMetadata(b, k));
    if b in s && k in s[b].objects {
      var o := s[b].objects[k];
      assert SoundObject(k, o);
      assert t[ObjectPath(h, b, k)] == Raw(o.data) && t[MetadataPath(h, b, k)] == Json(MetaDoc(o.meta));
    }
  }

  /** Does no stray have the name that a request picks for its temporary file? */
  predicate FreeSuffix(s: Store, b: string, suffix: string)
  {
    b in s ==> suffix !in s[b].strays
  }

  predicate FreeName(s: Store, b: string, id: string, name: string)
  {
    b in s && id in s[b].uploads ==> name !in s[b].uploads[id].strays
  }

  /** Strays are all the temporary files there are: any other name a request picks for one is free. */
  lemma TemporaryIsFree(h: Hashes, used: set<string>, t: Tree, s: Store, b: string, suffix: string)
    requires Represents(h, used, t, s) && IsSegment(b) && FreeSuffix(s, b, suffix)
    ensures TempPath(b, suffix) !in t
  {
    if ValidBucketName(b) {
      FileHolds(h, used, t, s, ObjectStray(b, suffix));
    } else if TempPath(b, suffix) in t {
      var f := WhichFile(h, used, t, s, TempPath(b, suffix));
      NoTemporaryOutsideBuckets(h, f, b, suffix);
    }
  }

  lemma NoTemporaryOutsideBuckets(h: Hashes, f: FileId, b: string, suffix: string)
    requires ValidBucketName(f.bucket) && IsSegment(b) && PathOf(h, f) == TempPath(b, suffix)
    ensures f.bucket == b
  {
    Location(h, f);
    ValidNamesAreSafe(f.bucket);
    var p, q := PathOf(h, f), TempPath(b, suffix);
    assert p[0] == q[0] && p[1] == q[1] && p[2] == q[2];
  }

  /** The same in an upload's directory. */
  lemma UploadTemporaryIsFree(h: Hashes, used: set<string>, t: Tree, s: Store, b: string, id: string, name: string)
    requires Represents(h, used, t, s) && IsSegment(b) && id in used && FreeName(s, b, id, name)
    ensures UploadDir(h, b, id) + ["." + name] !in t
  {
    var p := UploadDir(h, b, id) + ["." + name];
    if ValidBucketName(b) {
      FileHolds(h, used, t, s, UploadStray(b, id, name));
    } else if p in t {
      var f := WhichFile(h, used, t, s, p);
      NoUploadOutsideBuckets(h, f, b, id, name);
    }
  }

  lemma CombinedIsDotted(dir: Path, suffix: string)
    ensures dir + ["." + ("combined-" + suffix)] == CombinedPath(dir, suffix)
  {
    assert "." + ("combined-" + suffix) == ".combined-" + suffix;
  }

  lemma PartTemporaryIsDotted(dir: Path, suffix: string)
    ensures dir + ["." + ("part-" + suffix)] == dir + [".part-" + suffix]
  {
    assert "." + ("part-" + suffix) == ".part-" + suffix;
  }

  lemma PartTemporaryIsFree(h: Hashes, used: set<string>, t: Tree, s: Store, b: string, id: string, suffix: string)
    requires Represents(h, used, t, s) && IsSegment(b) && id in used && FreeName(s, b, id, "part-" + suffix)
    ensures UploadDir(h, b, id) + [".part-" + suffix] !in t
  {
    UploadTemporaryIsFree(h, used, t, s, b, id, "part-" + suffix);
    PartTemporaryIsDotted(UploadDir(h, b, id), suffix);
  }

  lemma CombinedIsFree(h: Hashes, used: set<string>, t: Tree, s: Store, b: string, id: string, suffix: string)
    requires Represents(h, used, t, s) && IsSegment(b) && id in used && FreeName(s, b, id, "combined-" + suffix)
    ensures CombinedPath(UploadDir(h, b, id), suffix) !in t
  {
    UploadTemporaryIsFree(h, used, t, s, b, id, "combined-" + suffix);
    CombinedIsDotted(UploadDir(h, b, id), suffix);
  }

  lemma NoUploadOutsideBuckets(h: Hashes, f: FileId, b: string, id: string, name: string)
    requires ValidBucketName(f.bucket) && IsSegment(b) && PathOf(h, f) == UploadDir(h, b, id) + ["." + name]
    ensures f.bucket == b
  {
    Location(h, f);
    ValidNamesAreSafe(f.bucket);
    var p, q := PathOf(h, f), UploadDir(h, b, id) + ["." + name];
    assert p[0] == q[0] && p[1] == q[1] && p[2] == q[2];
  }

  /** Buckets are found by their records, whatever one-segment name is asked for. */
  lemma BucketIsFound(h: Hashes, used: set<string>, t: Tree, s: Store, name: string)
    requires Represents(h, used, t, s) && IsSegment(name)
    ensures HasBucket(t, name) <==> name in s
  {
    if name in s {
      FileHolds(h, used, t, s, BucketRecord(name));
    } else if HasBucket(t, name) {
      var f := WhichFile(h, used, t, s, RecordPath(name));
      Spelled(h, f);
      RecordOf(h, used, f, name);
    }
  }

  /** Objects are read as stored. */
  lemma ObjectsAreFound(h: Hashes, used: set<string>, t: Tree, s: Store, b: string, k: string)
    requires Represents(h, used, t, s) && k in used && IsSegment(b)
    ensures ObjectAt(h, t, b, k) == FindObject(s, b, k)
    ensures HeadAt(h, t, b, k) == match FindObject(s, b, k) case Ok(o) => Ok(o.meta) case Err(e) => Err(e)
    ensures DataIsRaw(h, t, b, k)
  {
    BucketIsFound(h, used, t, s, b);
    if b in s {
      FileHolds(h, used, t, s, ObjectData(b, k));
      FileHolds(h, used, t, s, ObjectMetadata(b, k));
    }
  }

  /** Uploads are found under their bucket, ID and key. */
  lemma UploadsAreFound(h: Hashes, used: set<string>, t: Tree, s: Store, b: string, k: string, id: string)
    requires Represents(h, used, t, s) && id in used && IsSegment(b)
    ensures UploadAt(h, t, b, k, id) == match FindUpload(s, b, k, id) case Ok(u) => Ok(u.state) case Err(e) => Err(e)
  {
    BucketIsFound(h, used, t, s, b);
    if b in s {
      FileHolds(h, used, t, s, UploadRecord(b, id));
      if id in s[b].uploads {
        assert SoundUpload(h, id, s[b].uploads[id]);
      }
    }
  }

  /** The parts in an upload's directory are the upload's parts. */
  lemma PartsAreFound(h: Hashes, used: set<string>, t: Tree, s: Store, b: string, id: string)
    requires Represents(h, used, t, s) && id in used && b in s && id in s[b].uploads
    ensures PartsIn(t, UploadDir(h, b, id)) == s[b].uploads[id].parts
    ensures PartDataIsRaw(t, UploadDir(h, b, id))
  {
    var dir, parts := UploadDir(h, b, id), s[b].uploads[id].parts;
    assert SoundUpload(h, id, s[b].uploads[id]);
    forall n: nat
      ensures PartAt(t, dir, n) == if n in parts then Some(parts[n]) else None
      ensures PartDataPath(dir, n) in t ==> t[PartDataPath(dir, n)].Raw?
    {
      PartIsFound(h, used, t, s, b, id, n);
    }
    AllParts(h, t, dir, parts);
  }

  lemma PartIsFound(h: Hashes, used: set<string>, t: Tree, s: Store, b: string, id: string, n: nat)
    requires Represents(h, used, t, s) && id in used && b in s && id in s[b].uploads
    ensures var dir, parts := UploadDir(h, b, id), s[b].uploads[id].parts;
            && PartAt(t, dir, n) == (if n in parts then Some(parts[n]) else None)
            && (PartDataPath(dir, n) in t ==> t[PartDataPath(dir, n)].Raw?)
  {
    FileHolds(h, used, t, s, PartData(b, id, n));
    FileHolds(h, used, t, s, PartMetadata(b, id, n));
  }

  lemma AllParts(h: Hashes, t: Tree, dir: Path, parts: map<nat, Part>)
    requires SoundParts(h, parts)
    requires forall n: nat :: PartAt(t, dir, n) == if n in parts then Some(parts[n]) else None
    ensures PartsIn(t, dir) == parts
  {
  }

  lemma NoPartsWithoutUpload(h: Hashes, used: set<string>, t: Tree, s: Store, b: string, id: string)
    requires Represents(h, used, t, s) && id in used && b in s && id !in s[b].uploads
    ensures PartDataIsRaw(t, UploadDir(h, b, id))
  {
    forall n: nat
      ensures PartDataPath(UploadDir(h, b, id), n) !in t
    {
      FileHolds(h, used, t, s, PartData(b, id, n));
    }
  }

  // ----- listings -----

  /** Every metadata file of a bucket is that of one of its objects. */
  lemma DescribedIsObject(h: Hashes, used: set<string>, t: Tree, s: Store, b: string, name: string, prefix: string,
                          m: ObjectMeta)
    requires Represents(h, used, t, s) && b in s && DescribedBy(t, MetadataDir(b), name, prefix, m)
    ensures m.key in used && m.key in s[b].objects && m == s[b].objects[m.key].meta
    ensures name == ObjectFileName(h, m.key) + ".json" && HasPrefix(m.key, prefix)
  {
    var f := WhichFile(h, used, t, s, MetadataDir(b) + [name]);
    MetadataOf(h, used, f, b, name);
    assert SoundObject(f.key, s[b].objects[f.key]);
  }

  /** A bucket is listed by its objects' metadata, in key order, however the directory is read. */
  lemma ListingIsEnumeration(h: Hashes, used: set<string>, t: Tree, s: Store, b: string, prefix: string)
    requires Represents(h, used, t, s) && b in s
    ensures KeysAreApart(t, MetadataDir(b))
    ensures forall ms :: InKeyOrder(t, MetadataDir(b), prefix, ms) ==> ms == Enumeration(s[b].objects, prefix)
  {
    var dir, objects := MetadataDir(b), s[b].objects;
    forall x, y, m, m' | DescribedBy(t, dir, x, "", m) && DescribedBy(t, dir, y, "", m') && m.key == m'.key
      ensures x == y
    {
      DescribedIsObject(h, used, t, s, b, x, "", m);
      DescribedIsObject(h, used, t, s, b, y, "", m');
    }
    forall ms | InKeyOrder(t, dir, prefix, ms)
      ensures ms == Enumeration(objects, prefix)
    {
      forall m
        ensures m in ms <==> m.key in objects && m == objects[m.key].meta && HasPrefix(m.key, prefix)
      {
        DescribedIffObject(h, used, t, s, b, prefix, m);
      }
      EnumerationIs(objects, prefix, ms);
    }
  }

  /** Listed with the prefix are the objects that have it. */
  lemma ListedAreStored(h: Hashes, used: set<string>, t: Tree, s: Store, b: string, prefix: string,
                        ms: seq<ObjectMeta>)
    requires Represents(h, used, t, s) && b in s && InKeyOrder(t, MetadataDir(b), prefix, ms)
    ensures forall m: ObjectMeta :: HasPrefix(m.key, prefix) ==> (m in ms <==> m in Metas(s[b].objects))
  {
    forall m: ObjectMeta | HasPrefix(m.key, prefix)
      ensures m in ms <==> m in Metas(s[b].objects)
    {
      DescribedIffObject(h, used, t, s, b, prefix, m);
      MetasHaveTheirKeys(h, used, s, b, m);
    }
  }

  lemma MetasHaveTheirKeys(h: Hashes, used: set<string>, s: Store, b: string, m: ObjectMeta)
    requires SoundStore(h, used, s) && b in s
    ensures m in Metas(s[b].objects) <==> m.key in s[b].objects && m == s[b].objects[m.key].meta
  {
    if m in Metas(s[b].objects) {
      var k :| k in s[b].objects && s[b].objects[k].meta == m;
      assert SoundBucket(h, used, s[b]);
      assert SoundObject(k, s[b].objects[k]);
    }
  }

  lemma DescribedIffObject(h: Hashes, used: set<string>, t: Tree, s: Store, b: string, prefix: string, m: ObjectMeta)
    requires Represents(h, used, t, s) && b in s
    ensures IsListed(t, MetadataDir(b), prefix, m) <==>
            m.key in s[b].objects && m == s[b].objects[m.key].meta && HasPrefix(m.key, prefix)
  {
    if IsListed(t, MetadataDir(b), prefix, m) {
      var name :| DescribedBy(t, MetadataDir(b), name, prefix, m);
      DescribedIsObject(h, used, t, s, b, name, prefix, m);
    } else if m.key in s[b].objects && m == s[b].objects[m.key].meta && HasPrefix(m.key, prefix) {
      ObjectIsDescribed(h, used, t, s, b, m.key, prefix);
    }
  }

  lemma ObjectIsDescribed(h: Hashes, used: set<string>, t: Tree, s: Store, b: string, k: string, prefix: string)
    requires Represents(h, used, t, s) && b in s && k in s[b].objects && HasPrefix(k, prefix)
    ensures IsListed(t, MetadataDir(b), prefix, s[b].objects[k].meta)
  {
    assert SoundBucket(h, used, s[b]);
    assert SoundObject(k, s[b].objects[k]);
    FileHolds(h, used, t, s, ObjectMetadata(b, k));
    DescribedIsListed(t, MetadataDir(b), ObjectFileName(h, k) + ".json", prefix, s[b].objects[k].meta);
  }

  lemma DescribedIsListed(t: Tree, dir: Path, name: string, prefix: string, m: ObjectMeta)
    requires DescribedBy(t, dir, name, prefix, m)
    ensures IsListed(t, dir, prefix, m)
  {
  }

  /** A part's metadata file in an upload's directory is that of one of its parts. */
  lemma DescribedIsPart(h: Hashes, used: set<string>, t: Tree, s: Store, b: string, id: string, name: string)
    returns (n: nat)
    requires Represents(h, used, t, s) && b in s && id in s[b].uploads
    requires IsPartMetadataName(name) && UploadDir(h, b, id) + [name] in t
    ensures n in s[b].uploads[id].parts && name == PartName(n) + ".json"
    ensures t[UploadDir(h, b, id) + [name]] == Json(PartDoc(s[b].uploads[id].parts[n].info))
    ensures s[b].uploads[id].parts[n].info.partNumber == n
  {
    var dir := UploadDir(h, b, id);
    var f := WhichFile(h, used, t, s, dir + [name]);
    assert SoundBucket(h, used, s[b]);
    UnderUpload(h, used, f, b, id);
    LastName(h, used, f, dir, name);
    n := f.number;
    assert SoundPart(h, n, s[b].uploads[id].parts[n]);
  }

  lemma LastName(h: Hashes, used: set<string>, f: FileId, dir: Path, name: string)
    requires Known(f, used) && PathOf(h, f) == dir + [name] && IsPartMetadataName(name)
    requires f.UploadRecord? || f.PartData? || f.PartMetadata? || f.UploadStray?
    ensures f.PartMetadata? && name == PartName(f.number) + ".json"
  {
    Spelled(h, f);
    var p := PathOf(h, f);
    assert p[|p| - 1] == name;
    assert name[0] == "part-"[0] == 'p' && name[|name| - 5..][4] == 'n';
    StraysHaveDots(h, f);
    PartNames(if f.PartData? || f.PartMetadata? then f.number else 0);
  }

  lemma PartNames(n: nat)
    ensures IsPartMetadataName(PartName(n) + ".json")
    ensures var data := PartName(n) + ".data"; data[|data| - 1] == 'a'
  {
    var name := PartName(n) + ".json";
    assert name[..5] == "part-" && name[|name| - 5..] == ".json";
  }

  /** An upload's parts are listed by what is recorded of them. */
  lemma PartsAreListed(h: Hashes, used: set<string>, t: Tree, s: Store, b: string, id: string)
    requires Represents(h, used, t, s) && b in s && id in s[b].uploads
    ensures var dir, parts := UploadDir(h, b, id), s[b].uploads[id].parts;
            && NumbersAreApart(t, dir)
            && (forall name :: !BrokenPart(t, dir, name))
            && (forall p :: (exists name :: DescribesPart(t, dir, name, p)) <==>
                            p.partNumber in parts && p == parts[p.partNumber].info)
  {
    var dir, parts := UploadDir(h, b, id), s[b].uploads[id].parts;
    forall x, y, p, q | DescribesPart(t, dir, x, p) && DescribesPart(t, dir, y, q) && p.partNumber == q.partNumber
      ensures x == y
    {
      var m := DescribedIsPart(h, used, t, s, b, id, x);
      var n := DescribedIsPart(h, used, t, s, b, id, y);
    }
    forall name
      ensures !BrokenPart(t, dir, name)
    {
      if BrokenPart(t, dir, name) {
        var n := DescribedIsPart(h, used, t, s, b, id, name);
      }
    }
    forall p
      ensures (exists name :: DescribesPart(t, dir, name, p)) <==>
              p.partNumber in parts && p == parts[p.partNumber].info
    {
      if name :| DescribesPart(t, dir, name, p) {
        var n := DescribedIsPart(h, used, t, s, b, id, name);
      }
      if p.partNumber in parts && p == parts[p.partNumber].info {
        PartIsDescribed(h, used, t, s, b, id, p.partNumber);
      }
    }
  }

  lemma PartIsDescribed(h: Hashes, used: set<string>, t: Tree, s: Store, b: string, id: string, n: nat)
    requires Represents(h, used, t, s) && b in s && id in s[b].uploads && n in s[b].uploads[id].parts
    ensures DescribesPart(t, UploadDir(h, b, id), PartName(n) + ".json", s[b].uploads[id].parts[n].info)
  {
    assert SoundBucket(h, used, s[b]);
    FileHolds(h, used, t, s, PartMetadata(b, id, n));
    PartNames(n);
  }

  /** Parts listed one by one come in ascending number, each recorded part once. */
  lemma {:induction false} PartsUpToAscend(h: Hashes, parts: map<nat, Part>, n: nat)
    requires SoundParts(h, parts)
    ensures AscendingNumbers(PartsUpTo(parts, n))
    ensures forall p :: p in PartsUpTo(parts, n) <==>
                        1 <= p.partNumber <= n && p.partNumber in parts && p == parts[p.partNumber].info
  {
    if n > 0 {
      PartsUpToAscend(h, parts, n - 1);
      if n in parts {
        assert SoundPart(h, n, parts[n]);
        OneNumberMore(PartsUpTo(parts, n - 1), parts[n].info);
      }
    }
  }

  lemma OneNumberMore(before: seq<MultipartPart>, p: MultipartPart)
    requires AscendingNumbers(before) && forall q :: q in before ==> q.partNumber < p.partNumber
    ensures AscendingNumbers(before + [p])
    ensures forall q :: q in before + [p] <==> q in before || q == p
  {
    assert forall i :: 0 <= i < |before| ==> before[i] in before;
  }

  lemma {:induction false} AscendingPartsAreUnique(a: seq<MultipartPart>, b: seq<MultipartPart>)
    requires AscendingNumbers(a) && AscendingNumbers(b) && forall p :: p in a <==> p in b
    ensures a == b
  {
    FirstPart(a);
    FirstPart(b);
    if a != [] {
      var m, n := |a| - 1, |b| - 1;
      LastPartIsSame(a, b);
      forall p
        ensures p in a[..m] <==> p in b[..n]
      {
        PartsButLast(a, p);
        PartsButLast(b, p);
      }
      AscendingPartsAreUnique(a[..m], b[..n]);
      assert a == a[..m] + [a[m]] && b == b[..n] + [b[n]];
    }
  }

  lemma FirstPart(a: seq<MultipartPart>)
    ensures a != [] ==> a[0] in a
  {
  }

  lemma LastPartIsSame(a: seq<MultipartPart>, b: seq<MultipartPart>)
    requires AscendingNumbers(a) && AscendingNumbers(b) && a != [] && b != [] && forall p :: p in a <==> p in b
    ensures a[|a| - 1] == b[|b| - 1]
  {
    assert a[|a| - 1] in b && b[|b| - 1] in a;
  }

  lemma PartsButLast(a: seq<MultipartPart>, p: MultipartPart)
    requires AscendingNumbers(a) && a != []
    ensures p in a[..|a| - 1] <==> p in a && p != a[|a| - 1]
  {
  }
}
