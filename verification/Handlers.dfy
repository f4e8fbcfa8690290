/** The API handlers with logic of their own: creating and deleting buckets, multi-object delete and ListObjectsV2. */
module Handlers {
  import opened Types
  import opened Encoding
  import opened BucketNames
  import opened Layout
  import opened FileSystem
  import opened Listing
  import opened ObjectStore
  import opened Trees
  import opened Grouping
  import opened Tokens
  import opened Pages
  import opened Backend

  function DeleteAllTree(h: Hashes, t: Tree, bucket: string, keys: seq<string>): Tree
  {
    if keys == [] then t
    else DeleteTree(h, DeleteAllTree(h, t, bucket, keys[..|keys| - 1]), bucket, keys[|keys| - 1])
  }

  // ----- request paths -----

  /** A request path is cut into a bucket and, unless it is a bucket's own path, a key. */
  function CutPath(path: string): (string, Option<string>)
  {
    var rest := if path != "" && path[0] == '/' then path[1..] else path;
    var i := FirstSlash(rest);
    if i == |rest| then (rest, None) else (rest[..i], Some(rest[i + 1..]))
  }

  /** Buckets of request paths have no slash, and every bucket name without one, with every key whatever, has its
      path. */
  lemma PathsAreCut(bucket: string, key: string)
    ensures forall path :: IsSegment(CutPath(path).0)
    ensures IsSegment(bucket) ==>
              CutPath("/" + bucket) == (bucket, None) && CutPath("/" + bucket + "/" + key) == (bucket, Some(key))
  {
    if IsSegment(bucket) {
      var own, path := "/" + bucket, "/" + bucket + "/" + key;
      assert own[1..] == bucket;
      assert path[1..] == bucket + "/" + key;
      FirstSegment(bucket, key);
    }
  }

  // ----- handlers -----

  class Handler {
    const disk: Disk
    const h: Hashes
    const backend: FSBackend

    ghost predicate Valid()
      reads disk, backend.disk
    {
      backend.Valid() && backend.disk == disk && backend.h == h
    }

    constructor (backend: FSBackend)
      requires backend.Valid()
      ensures Valid() && this.backend == backend && this.disk == backend.disk && this.h == backend.h
    {
      this.disk := backend.disk;
      this.h := backend.h;
      this.backend := backend;
    }

    method CreateBucket(bucket: string, now: int) returns (r: Result<()>)
      requires Valid()
      modifies disk
      ensures Valid()
      ensures r == if bucket == "" then Err(InvalidRequest)
                   else if !ValidBucketName(bucket) then Err(InvalidBucketName)
                   else if HasBucket(old(disk.Tree()), bucket) then Err(BucketExists) else Ok(())
      ensures r.Err? ==> disk.Tree() == old(disk.Tree()) && disk.fs.dirs == old(disk.fs.dirs)
      ensures r.Ok? ==> disk.Tree() == old(disk.Tree())[RecordPath(bucket) := Json(BucketDoc(bucket, now, "us-east-1"))]
      ensures r.Ok? ==>
                disk.fs.dirs == old(disk.fs.dirs) + Ancestors(BucketPath(bucket)) + Ancestors(RecordDir(bucket))
    {
      if bucket == "" {
        return Err(InvalidRequest);
      }
      var valid := IsValidBucketName(bucket);
      if !valid {
        return Err(InvalidBucketName);
      }
      r := backend.CreateBucket(bucket, now);
    }

    /** Names no bucket can have never reach the backend, which does not check them. */
    method DeleteBucket(bucket: string) returns (r: Result<()>)
      requires Valid()
      modifies disk
      ensures Valid()
      ensures r == if bucket == "" then Err(InvalidRequest)
                   else if !ValidBucketName(bucket) then Err(InvalidBucketName)
                   else DeletionResult(old(disk.fs), bucket)
      ensures r.Err? ==> disk.Tree() == old(disk.Tree()) && disk.fs.dirs == old(disk.fs.dirs)
      ensures r.Ok? ==> disk.Tree() == DropBucketTree(old(disk.Tree()), bucket)
                        && disk.fs.dirs == DeletionDirs(old(disk.fs.dirs), bucket)
    {
      if bucket == "" {
        return Err(InvalidRequest);
      }
      var valid := IsValidBucketName(bucket);
      if !valid {
        return Err(InvalidBucketName);
      }
      r := backend.DeleteBucket(bucket);
    }

    /** Keys are deleted one after another; a quiet request is answered with an empty list. */
    method DeleteObjects(bucket: string, keys: seq<string>, quiet: bool) returns (r: Result<seq<string>>)
      requires Valid()
      modifies disk
      ensures Valid() && disk.fs.dirs == old(disk.fs.dirs)
      ensures r == if |keys| > 1000 then Err(InvalidRequest)
                   else if !HasBucket(old(disk.Tree()), bucket) then Err(BucketNotFound)
                   else Ok(if quiet then [] else keys)
      ensures disk.Tree() == if r.Ok? then DeleteAllTree(h, old(disk.Tree()), bucket, keys) else old(disk.Tree())
    {
      if |keys| > MAX_DELETE_OBJECTS {
        return Err(InvalidRequest);
      }
      var found := backend.BucketExists(bucket);
      if !found {
        return Err(BucketNotFound);
      }
      var deleted := DeleteEach(bucket, keys, quiet);
      return Ok(deleted);
    }

    method DeleteOne(bucket: string, key: string)
      requires Valid() && HasBucket(disk.Tree(), bucket)
      modifies disk
      ensures Valid() && disk.fs.dirs == old(disk.fs.dirs)
      ensures disk.Tree() == DeleteTree(h, old(disk.Tree()), bucket, key)
    {
      var result := backend.DeleteObject(bucket, key);
      if result.Err? {
        assert false;
      }
    }

    method DeleteEach(bucket: string, keys: seq<string>, quiet: bool) returns (deleted: seq<string>)
      requires Valid() && HasBucket(disk.Tree(), bucket)
      modifies disk
      ensures Valid() && disk.fs.dirs == old(disk.fs.dirs)
      ensures deleted == if quiet then [] else keys
      ensures disk.Tree() == DeleteAllTree(h, old(disk.Tree()), bucket, keys)
    {
      ghost var before := disk.Tree();
      deleted := [];
      for i := 0 to |keys|
        invariant Valid() && disk.fs.dirs == old(disk.fs.dirs) && HasBucket(disk.Tree(), bucket)
        invariant disk.Tree() == DeleteAllTree(h, before, bucket, keys[..i])
        invariant deleted == if quiet then [] else keys[..i]
      {
        DeleteAllStep(h, before, bucket, keys, i);
        DeleteOne(bucket, keys[i]);
        OneKeyMore(keys, i);
        if !quiet {
          deleted := deleted + [keys[i]];
        }
      }
      AllKeys(keys);
    }

    /** A token, if there is one, stands in for `start-after`. */
    method ListObjectsV2(bucket: string, q: Query) returns (r: Result<Response>)
      requires Valid()
      requires HasBucket(disk.Tree(), bucket) ==>
                 KeysAreApart(disk.Tree(), MetadataDir(bucket)) && KeysAreBytes(disk.Tree(), MetadataDir(bucket))
      ensures MarkerOf(q).Err? ==> r == Err(MarkerOf(q).error)
      ensures MarkerOf(q).Ok? && !HasBucket(disk.Tree(), bucket) ==> r == Err(BucketNotFound)
      ensures MarkerOf(q).Ok? && HasBucket(disk.Tree(), bucket) ==>
                r.Ok? && Answers(r.value, q) && exists ms ::
                  InKeyOrder(disk.Tree(), MetadataDir(bucket), q.prefix, ms)
                    && r.value.listing == Page(ms, OptionsOf(q, MarkerOf(q).value))
                    && AnswersQuery(Members(ms), q, r.value.listing)
    {
      var marker := q.startAfter;
      if q.token != "" {
        var decoded := Base64UrlDecode(q.token);
        if decoded.None? {
          return Err(InvalidRequest);
        }
        marker := decoded.value;
      }
      var options := OptionsOf(q, marker);
      var listed := backend.ListObjects(bucket, options);
      if listed.Err? {
        return Err(listed.error);
      }
      var result := listed.value;
      ghost var ms :| InKeyOrder(disk.Tree(), MetadataDir(bucket), q.prefix, ms) && result == Page(ms, options);
      var nextToken := "";
      if result.isTruncated {
        NextMarkerIsBytes(disk.Tree(), MetadataDir(bucket), ms, options);
        nextToken := Base64Url(result.nextMarker);
      }
      TokenAsksForRest(result, q);
      KeyOrderIsListable(disk.Tree(), MetadataDir(bucket), ms, options);
      QueryIsAnswered(ms, q, marker);
      return Ok(Response(result, ParsedMaxKeys(q.maxKeys), nextToken, |result.objects| + |result.commonPrefixes|));
    }
  }

  ghost predicate KeysAreBytes(t: Tree, dir: Path)
  {
    forall name, m :: DescribedBy(t, dir, name, "", m) ==> IsByteString(m.key)
  }

  /** A response counts its entries, and sending its token back asks for what follows its last entry. */
  ghost predicate Answers(r: Response, q: Query)
  {
    && r.keyCount == |r.listing.objects| + |r.listing.commonPrefixes|
    && r.maxKeys == ParsedMaxKeys(q.maxKeys)
    && (!r.listing.isTruncated ==> r.nextToken == "")
    && (r.listing.isTruncated && r.listing.nextMarker != "" ==>
          r.nextToken != "" && MarkerOf(q.(token := r.nextToken)) == Ok(r.listing.nextMarker))
  }

  lemma TokenAsksForRest(result: ListResult, q: Query)
    requires result.isTruncated ==> IsByteString(result.nextMarker)
    ensures var token := if result.isTruncated then Base64Url(result.nextMarker) else "";
            Answers(Response(result, ParsedMaxKeys(q.maxKeys), token, |result.objects| + |result.commonPrefixes|), q)
  {
    if result.isTruncated {
      Base64UrlRoundTrip(result.nextMarker);
    }
  }

  lemma {:induction false} LeadersAreListed(ms: seq<ObjectMeta>, o: ListOptions)
    ensures forall m :: m in Leaders(ms, o) ==> m in ms
  {
    if ms != [] {
      LeadersAreListed(ms[..|ms| - 1], o);
    }
  }

  lemma NextMarkerIsListed(ms: seq<ObjectMeta>, o: ListOptions)
    requires Truncated(ms, o)
    ensures exists m :: m in ms && m.key == NextMarker(ms, o)
  {
    BeyondMembers(ms, o.marker);
    LeadersAreListed(Beyond(ms, o.marker), o);
    var last := PageLeaders(ms, o)[EffectiveMax(o) - 1];
    assert last in Reference(ms, o);
    assert last in ms;
  }

  lemma NextMarkerIsBytes(t: Tree, dir: Path, ms: seq<ObjectMeta>, o: ListOptions)
    requires KeysAreBytes(t, dir) && InKeyOrder(t, dir, o.prefix, ms) && Truncated(ms, o)
    ensures IsByteString(NextMarker(ms, o))
  {
    NextMarkerIsListed(ms, o);
    var m :| m in ms && m.key == NextMarker(ms, o);
    assert IsListed(t, dir, o.prefix, m);
    var name :| DescribedBy(t, dir, name, o.prefix, m);
    assert DescribedBy(t, dir, name, "", m);
  }

  lemma OneKeyMore(keys: seq<string>, i: nat)
    requires i < |keys|
    ensures keys[..i + 1] == keys[..i] + [keys[i]]
  {
  }

  lemma AllKeys(keys: seq<string>)
    ensures keys[..|keys|] == keys
  {
  }

  lemma DeleteAllStep(h: Hashes, t: Tree, bucket: string, keys: seq<string>, i: nat)
    requires i < |keys|
    ensures DeleteAllTree(h, t, bucket, keys[..i + 1]) ==
            DeleteTree(h, DeleteAllTree(h, t, bucket, keys[..i]), bucket, keys[i])
    ensures HasBucket(DeleteAllTree(h, t, bucket, keys[..i]), bucket) ==>
            HasBucket(DeleteAllTree(h, t, bucket, keys[..i + 1]), bucket)
  {
    assert keys[..i + 1][..i] == keys[..i];
    RecordStays(h, DeleteAllTree(h, t, bucket, keys[..i]), bucket, keys[i]);
  }

  /** Deleting an object leaves its bucket's record alone. */
  lemma RecordStays(h: Hashes, t: Tree, bucket: string, key: string)
    ensures HasBucket(DeleteTree(h, t, bucket, key), bucket) <==> HasBucket(t, bucket)
  {
    var record, data, metadata := RecordPath(bucket), ObjectPath(h, bucket, key), MetadataPath(h, bucket, key);
    HexRoundTrip(h.sha256(key));
    var name := ObjectFileName(h, key);
    assert record[|record| - 1] == ".bucket.json" && data[|data| - 1] == name
           && metadata[|metadata| - 1] == name + ".json";
    assert name != "" ==> IsHexDigit(name[0]);
    assert name + ".json" != ".bucket.json" by {
      if name != "" {
        assert (name + ".json")[0] == name[0];
      } else {
        assert |name + ".json"| == 5;
      }
    }
  }
}
