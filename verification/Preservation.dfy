/** Every change a request makes to the tree is the change it makes to the store. */
module Preservation {
  import opened Types
  import opened BucketNames
  import opened Layout
  import opened FileSystem
  import opened ObjectStore
  import opened Assembly
  import opened Trees
  import opened Refinement

  // ----- how each change to the store shows in its files -----

  lemma LookupObject(s: Store, b: string, k: string, o: Object, f: FileId)
    requires b in s
    ensures Lookup(WithObject(s, b, k, o), f) ==
            if f == ObjectData(b, k) then Some(Raw(o.data))
            else if f == ObjectMetadata(b, k) then Some(Json(MetaDoc(o.meta)))
            else Lookup(s, f)
  {
  }

  lemma LookupNoObject(s: Store, b: string, k: string, f: FileId)
    requires b in s
    ensures Lookup(WithoutObject(s, b, k), f) ==
            if f == ObjectData(b, k) || f == ObjectMetadata(b, k) then None else Lookup(s, f)
  {
  }

  lemma LookupUpload(s: Store, b: string, id: string, state: UploadState, f: FileId)
    requires b in s && id !in s[b].uploads
    ensures Lookup(WithUpload(s, b, id, Upload(state, map[], map[])), f) ==
            if f == UploadRecord(b, id) then Some(Json(UploadDoc(state))) else Lookup(s, f)
  {
  }

  lemma LookupPart(s: Store, b: string, id: string, n: nat, part: Part, f: FileId)
    requires b in s && id in s[b].uploads
    ensures Lookup(WithPart(s, b, id, n, part), f) ==
            if f == PartData(b, id, n) then Some(Raw(part.data))
            else if f == PartMetadata(b, id, n) then Some(Json(PartDoc(part.info)))
            else Lookup(s, f)
  {
  }

  lemma LookupNoUpload(s: Store, b: string, id: string, f: FileId)
    requires b in s
    ensures Lookup(WithoutUpload(s, b, id), f) == if OfUpload(f, b, id) then None else Lookup(s, f)
  {
  }

  lemma LookupNoBucket(s: Store, b: string, f: FileId)
    ensures Lookup(s - {b}, f) == if f.bucket == b then None else Lookup(s, f)
  {
  }

  lemma LookupStray(s: Store, b: string, suffix: string, c: Content, f: FileId)
    requires b in s
    ensures Lookup(WithStray(s, b, suffix, c), f) == if f == ObjectStray(b, suffix) then Some(c) else Lookup(s, f)
  {
  }

  lemma LookupUploadStray(s: Store, b: string, id: string, name: string, c: Content, f: FileId)
    requires b in s && id in s[b].uploads
    ensures Lookup(WithUploadStray(s, b, id, name, c), f) ==
            if f == UploadStray(b, id, name) then Some(c) else Lookup(s, f)
  {
  }

  function WithUploadStray(s: Store, b: string, id: string, name: string, c: Content): Store
    requires b in s && id in s[b].uploads
  {
    WithUpload(s, b, id, s[b].uploads[id].(strays := s[b].uploads[id].strays[name := c]))
  }

  function WithPart(s: Store, b: string, id: string, n: nat, part: Part): Store
    requires b in s && id in s[b].uploads
  {
    WithUpload(s, b, id, s[b].uploads[id].(parts := s[b].uploads[id].parts[n := part]))
  }

  // ----- the store stays sound -----

  /** Changing one bucket soundly. */
  lemma SoundWith(h: Hashes, used: set<string>, s: Store, b: string, bucket: Bucket)
    requires SoundStore(h, used, s) && ValidBucketName(b) && SoundBucket(h, used, bucket)
    ensures SoundStore(h, used, s[b := bucket])
  {
  }

  lemma SoundWithUpload(h: Hashes, used: set<string>, s: Store, b: string, id: string, u: Upload)
    requires SoundStore(h, used, s) && b in s && id in used && SoundUpload(h, id, u)
    ensures SoundStore(h, used, WithUpload(s, b, id, u))
  {
    assert SoundBucket(h, used, s[b]);
    SoundWith(h, used, s, b, s[b].(uploads := s[b].uploads[id := u]));
  }

  lemma SoundWithPart(h: Hashes, used: set<string>, s: Store, b: string, id: string, n: nat, part: Part)
    requires SoundStore(h, used, s) && b in s && id in s[b].uploads && SoundPart(h, n, part)
    ensures SoundStore(h, used, WithPart(s, b, id, n, part))
  {
    assert SoundBucket(h, used, s[b]);
    assert SoundUpload(h, id, s[b].uploads[id]);
    SoundWithUpload(h, used, s, b, id, s[b].uploads[id].(parts := s[b].uploads[id].parts[n := part]));
  }

  // ----- the tree follows -----

  lemma PathIsFile(h: Hashes, used: set<string>, f: FileId)
    requires Known(f, used)
    ensures IsFile(h, used, PathOf(h, f))
  {
  }

  /** Writing a file changes what that file holds. */
  lemma Write(h: Hashes, used: set<string>, t: Tree, g: FileId, c: Content, f: FileId)
    requires Collisionless(h, used) && Known(f, used) && Known(g, used)
    ensures At(t[PathOf(h, g) := c], PathOf(h, f)) == if f == g then Some(c) else At(t, PathOf(h, f))
  {
    if f != g {
      Elsewhere(h, used, f, g);
    }
  }

  /** The tree after writing `g` stands for a store in which only `g` is different. */
  lemma WriteRepresents(h: Hashes, used: set<string>, t: Tree, s: Store, g: FileId, c: Content, s': Store)
    requires Represents(h, used, t, s) && Known(g, used) && SoundStore(h, used, s')
    requires forall f :: Lookup(s', f) == if f == g then Some(c) else Lookup(s, f)
    ensures Represents(h, used, t[PathOf(h, g) := c], s')
  {
    forall f | Known(f, used)
      ensures At(t[PathOf(h, g) := c], PathOf(h, f)) == Lookup(s', f)
    {
      FileHolds(h, used, t, s, f);
      Write(h, used, t, g, c, f);
    }
    PathIsFile(h, used, g);
  }

  /** The same for two files. */
  lemma WriteBothRepresents(h: Hashes, used: set<string>, t: Tree, s: Store, g: FileId, c: Content, g': FileId,
                            c': Content, s': Store)
    requires Represents(h, used, t, s) && Known(g, used) && Known(g', used) && g != g' && SoundStore(h, used, s')
    requires forall f :: Lookup(s', f) == if f == g then Some(c) else if f == g' then Some(c') else Lookup(s, f)
    ensures Represents(h, used, t[PathOf(h, g) := c][PathOf(h, g') := c'], s')
  {
    var t' := t[PathOf(h, g) := c];
    forall f | Known(f, used)
      ensures At(t'[PathOf(h, g') := c'], PathOf(h, f)) == Lookup(s', f)
    {
      FileHolds(h, used, t, s, f);
      Write(h, used, t, g, c, f);
      Write(h, used, t', g', c', f);
    }
    PathIsFile(h, used, g);
    PathIsFile(h, used, g');
  }

  /** Removing files: the tree keeps some of its files, and the store loses exactly the others. */
  lemma RemoveRepresents(h: Hashes, used: set<string>, t: Tree, s: Store, t': Tree, s': Store)
    requires Represents(h, used, t, s) && SoundStore(h, used, s')
    requires forall p :: p in t' ==> p in t && t'[p] == t[p]
    requires forall f :: Known(f, used) ==> Lookup(s', f) == if PathOf(h, f) in t' then Lookup(s, f) else None
    ensures Represents(h, used, t', s')
  {
    forall f | Known(f, used)
      ensures At(t', PathOf(h, f)) == Lookup(s', f)
    {
      FileHolds(h, used, t, s, f);
    }
  }

  // ----- request by request -----

  lemma CreateBucketRepresents(h: Hashes, used: set<string>, t: Tree, s: Store, b: string, now: int)
    requires Represents(h, used, t, s) && ValidBucketName(b) && b !in s
    ensures Represents(h, used, t[RecordPath(b) := Json(BucketDoc(b, now, REGION))],
                       s[b := Bucket(now, map[], map[], map[])])
  {
    var bucket := Bucket(now, map[], map[], map[]);
    SoundWith(h, used, s, b, bucket);
    WriteRepresents(h, used, t, s, BucketRecord(b), Json(BucketDoc(b, now, REGION)), s[b := bucket]);
  }

  lemma DropBucketRepresents(h: Hashes, used: set<string>, t: Tree, s: Store, b: string)
    requires Represents(h, used, t, s) && ValidBucketName(b)
    ensures Represents(h, used, DropBucketTree(t, b), s - {b})
  {
    forall f | Known(f, used)
      ensures Lookup(s - {b}, f) == if PathOf(h, f) in DropBucketTree(t, b) then Lookup(s, f) else None
    {
      FileHolds(h, used, t, s, f);
      DropBucketKeeps(h, used, t, b, f);
      LookupNoBucket(s, b, f);
    }
    RemoveRepresents(h, used, t, s, DropBucketTree(t, b), s - {b});
  }

  lemma DropBucketKeeps(h: Hashes, used: set<string>, t: Tree, b: string, f: FileId)
    requires Known(f, used) && ValidBucketName(b)
    ensures PathOf(h, f) in DropBucketTree(t, b) <==> PathOf(h, f) in t && f.bucket != b
  {
    UnderBucket(h, used, f, b);
  }

  lemma PutRepresents(h: Hashes, used: set<string>, t: Tree, s: Store, b: string, k: string, o: Object)
    requires Represents(h, used, t, s) && b in s && k in used && SoundObject(k, o)
    ensures Represents(h, used, PutTree(h, t, b, k, o), WithObject(s, b, k, o))
  {
    forall f
      ensures Lookup(WithObject(s, b, k, o), f) ==
              if f == ObjectData(b, k) then Some(Raw(o.data))
              else if f == ObjectMetadata(b, k) then Some(Json(MetaDoc(o.meta)))
              else Lookup(s, f)
    {
      LookupObject(s, b, k, o, f);
    }
    assert SoundBucket(h, used, s[b]);
    SoundWith(h, used, s, b, s[b].(objects := s[b].objects[k := o]));
    WriteBothRepresents(h, used, t, s, ObjectData(b, k), Raw(o.data), ObjectMetadata(b, k), Json(MetaDoc(o.meta)),
      WithObject(s, b, k, o));
  }

  lemma DeleteRepresents(h: Hashes, used: set<string>, t: Tree, s: Store, b: string, k: string)
    requires Represents(h, used, t, s) && b in s && k in used
    ensures Represents(h, used, DeleteTree(h, t, b, k), WithoutObject(s, b, k))
  {
    DataAndMetadataAgree(h, used, t, s, b, k);
    forall f | Known(f, used)
      ensures Lookup(WithoutObject(s, b, k), f) == if PathOf(h, f) in DeleteTree(h, t, b, k) then Lookup(s, f) else None
    {
      FileHolds(h, used, t, s, f);
      DeleteKeeps(h, used, t, b, k, f);
      LookupNoObject(s, b, k, f);
    }
    assert SoundBucket(h, used, s[b]);
    SoundWith(h, used, s, b, s[b].(objects := s[b].objects - {k}));
    RemoveRepresents(h, used, t, s, DeleteTree(h, t, b, k), WithoutObject(s, b, k));
  }

  lemma DeleteKeeps(h: Hashes, used: set<string>, t: Tree, b: string, k: string, f: FileId)
    requires Collisionless(h, used) && Known(f, used) && ValidBucketName(b) && k in used
    requires ObjectPath(h, b, k) in t <==> MetadataPath(h, b, k) in t
    ensures PathOf(h, f) in DeleteTree(h, t, b, k) <==>
            PathOf(h, f) in t && f != ObjectData(b, k) && f != ObjectMetadata(b, k)
  {
    if f != ObjectData(b, k) && f != ObjectMetadata(b, k) {
      Elsewhere(h, used, f, ObjectData(b, k));
      Elsewhere(h, used, f, ObjectMetadata(b, k));
    }
  }

  lemma StartRepresents(h: Hashes, used: set<string>, t: Tree, s: Store, b: string, state: UploadState)
    requires Represents(h, used, t, s) && b in s && state.uploadId in used && state.uploadId !in s[b].uploads
    ensures Represents(h, used, t[UploadPath(UploadDir(h, b, state.uploadId)) := Json(UploadDoc(state))],
                       WithUpload(s, b, state.uploadId, Upload(state, map[], map[])))
  {
    var id := state.uploadId;
    forall f
      ensures Lookup(WithUpload(s, b, id, Upload(state, map[], map[])), f) ==
              if f == UploadRecord(b, id) then Some(Json(UploadDoc(state))) else Lookup(s, f)
    {
      LookupUpload(s, b, id, state, f);
    }
    SoundWithUpload(h, used, s, b, id, Upload(state, map[], map[]));
    WriteRepresents(h, used, t, s, UploadRecord(b, id), Json(UploadDoc(state)),
      WithUpload(s, b, id, Upload(state, map[], map[])));
  }

  lemma PartRepresents(h: Hashes, used: set<string>, t: Tree, s: Store, b: string, id: string, part: Part)
    requires Represents(h, used, t, s) && b in s && id in used && id in s[b].uploads
    requires part.info.partNumber >= 0 && SoundPart(h, part.info.partNumber, part)
    ensures Represents(h, used, PartTree(t, UploadDir(h, b, id), part), WithPart(s, b, id, part.info.partNumber, part))
  {
    var n := part.info.partNumber;
    forall f
      ensures Lookup(WithPart(s, b, id, n, part), f) ==
              if f == PartData(b, id, n) then Some(Raw(part.data))
              else if f == PartMetadata(b, id, n) then Some(Json(PartDoc(part.info)))
              else Lookup(s, f)
    {
      LookupPart(s, b, id, n, part, f);
    }
    SoundWithPart(h, used, s, b, id, n, part);
    WriteBothRepresents(h, used, t, s, PartData(b, id, n), Raw(part.data), PartMetadata(b, id, n),
                        Json(PartDoc(part.info)), WithPart(s, b, id, n, part));
  }

  lemma EndRepresents(h: Hashes, used: set<string>, t: Tree, s: Store, b: string, id: string)
    requires Represents(h, used, t, s) && b in s && id in used
    ensures Represents(h, used, Without(t, UploadDir(h, b, id)), WithoutUpload(s, b, id))
  {
    forall f | Known(f, used)
      ensures Lookup(WithoutUpload(s, b, id), f) ==
              if PathOf(h, f) in Without(t, UploadDir(h, b, id)) then Lookup(s, f) else None
    {
      FileHolds(h, used, t, s, f);
      UnderUpload(h, used, f, b, id);
      LookupNoUpload(s, b, id, f);
    }
    assert SoundBucket(h, used, s[b]);
    SoundWith(h, used, s, b, s[b].(uploads := s[b].uploads - {id}));
    RemoveRepresents(h, used, t, s, Without(t, UploadDir(h, b, id)), WithoutUpload(s, b, id));
  }

  // ----- requests cut short -----

  /** A temporary file left beside objects is a stray of their bucket, and nothing else. */
  lemma StrayRepresents(h: Hashes, used: set<string>, t: Tree, s: Store, b: string, suffix: string, c: Content)
    requires Represents(h, used, t, s) && b in s
    ensures Represents(h, used, t[TempPath(b, suffix) := c], WithStray(s, b, suffix, c))
  {
    forall f
      ensures Lookup(WithStray(s, b, suffix, c), f) == if f == ObjectStray(b, suffix) then Some(c) else Lookup(s, f)
    {
      LookupStray(s, b, suffix, c, f);
    }
    assert SoundBucket(h, used, s[b]);
    SoundWith(h, used, s, b, s[b].(strays := s[b].strays[suffix := c]));
    WriteRepresents(h, used, t, s, ObjectStray(b, suffix), c, WithStray(s, b, suffix, c));
  }

  /** One left beside parts is a stray of their upload. */
  lemma UploadStrayRepresents(h: Hashes, used: set<string>, t: Tree, s: Store, b: string, id: string, name: string,
                              c: Content)
    requires Represents(h, used, t, s) && b in s && id in s[b].uploads
    ensures Represents(h, used, t[UploadDir(h, b, id) + ["." + name] := c], WithUploadStray(s, b, id, name, c))
  {
    forall f
      ensures Lookup(WithUploadStray(s, b, id, name, c), f) ==
              if f == UploadStray(b, id, name) then Some(c) else Lookup(s, f)
    {
      LookupUploadStray(s, b, id, name, c, f);
    }
    assert SoundBucket(h, used, s[b]);
    assert SoundUpload(h, id, s[b].uploads[id]);
    SoundWithUpload(h, used, s, b, id, s[b].uploads[id].(strays := s[b].uploads[id].strays[name := c]));
    WriteRepresents(h, used, t, s, UploadStray(b, id, name), c, WithUploadStray(s, b, id, name, c));
  }
}
