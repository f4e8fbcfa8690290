/** Whole runs of requests, and the lives of uploads along them. */
module Runs {
  import opened Types
  import opened BucketNames
  import opened Layout
  import opened ObjectStore

  /** The store after a run, and the outcomes along it. */
  ghost function AfterRun(h: Hashes, s: Store, ops: seq<Op>): (Store, seq<Outcome>)
  {
    if ops == [] then (s, [])
    else
      var (before, outcomes) := AfterRun(h, s, ops[..|ops| - 1]);
      var (after, outcome) := Apply(h, before, ops[|ops| - 1]);
      (after, outcomes + [outcome])
  }

  // ----- renaming -----

  /** A rename carries data and content metadata over, removes the source, and touches nothing else.  The tag becomes
      that of a plain object. */
  lemma RenamingMoves(h: Hashes, s: Store, b: string, k: string, b': string, k': string, now: int)
    requires b in s && k in s[b].objects && b' in s && (b != b' || k != k') && s[b].objects[k].meta.contentType != ""
    ensures var (s', outcome) := Renaming(h, s, b, k, b', k', now);
            var source, moved := s[b].objects[k], FindObject(s', b', k');
            && moved.Ok? && outcome == Described(moved.value.meta)
            && moved.value.data == source.data && moved.value.meta.contentLength == |source.data|
            && moved.value.meta.contentType == source.meta.contentType
            && moved.value.meta.userMetadata == source.meta.userMetadata
            && moved.value.meta.etag == PlainETag(h, source.data) && moved.value.meta.key == k'
            && FindObject(s', b, k) == Err(ObjectNotFound)
            && s'.Keys == s.Keys
            && (forall c, x :: (c != b || x != k) && (c != b' || x != k') ==>
              FindObject(s', c, x) == FindObject(s, c, x))
            && (forall c :: c in s ==> s'[c].uploads == s[c].uploads && s'[c].createdAt == s[c].createdAt)
  {
  }

  // ----- strays -----

  function TidyUpload(u: Upload): Upload
  {
    u.(strays := map[])
  }

  function TidyBucket(b: Bucket): Bucket
  {
    b.(uploads := map id | id in b.uploads :: TidyUpload(b.uploads[id]), strays := map[])
  }

  /** The store without strays. */
  function Tidy(s: Store): Store
  {
    map b | b in s :: TidyBucket(s[b])
  }

  lemma TidyWith(s: Store, b: string, bucket: Bucket)
    ensures Tidy(s[b := bucket]) == Tidy(s)[b := TidyBucket(bucket)]
  {
  }

  lemma TidyWithObject(s: Store, b: string, k: string, o: Object)
    requires b in s
    ensures Tidy(WithObject(s, b, k, o)) == WithObject(Tidy(s), b, k, o)
  {
    TidyWith(s, b, s[b].(objects := s[b].objects[k := o]));
  }

  lemma TidyWithoutObject(s: Store, b: string, k: string)
    requires b in s
    ensures Tidy(WithoutObject(s, b, k)) == WithoutObject(Tidy(s), b, k)
  {
    TidyWith(s, b, s[b].(objects := s[b].objects - {k}));
  }

  lemma {:induction false} TidyWithoutObjects(s: Store, b: string, keys: seq<string>)
    requires b in s
    ensures Tidy(WithoutObjects(s, b, keys)) == WithoutObjects(Tidy(s), b, keys)
  {
    if keys != [] {
      var rest := keys[..|keys| - 1];
      TidyWithoutObjects(s, b, rest);
      TidyWithoutObject(WithoutObjects(s, b, rest), b, keys[|keys| - 1]);
    }
  }

  lemma TidyWithUpload(s: Store, b: string, id: string, u: Upload)
    requires b in s
    ensures Tidy(WithUpload(s, b, id, u)) == WithUpload(Tidy(s), b, id, TidyUpload(u))
  {
    var bucket := s[b].(uploads := s[b].uploads[id := u]);
    TidyWith(s, b, bucket);
    assert TidyBucket(bucket).uploads == TidyBucket(s[b]).uploads[id := TidyUpload(u)];
  }

  lemma TidyWithoutUpload(s: Store, b: string, id: string)
    requires b in s
    ensures Tidy(WithoutUpload(s, b, id)) == WithoutUpload(Tidy(s), b, id)
  {
    var bucket := s[b].(uploads := s[b].uploads - {id});
    TidyWith(s, b, bucket);
    assert TidyBucket(bucket).uploads == TidyBucket(s[b]).uploads - {id};
  }

  /** Would the request delete the bucket but for its strays? */
  predicate KeptByStrays(s: Store, op: Op)
  {
    op.DeleteBucket? && op.bucket in s && s[op.bucket].objects == map[] && s[op.bucket].strays != map[]
  }

  /** Clients never notice strays, except that a bucket is not deleted while it has some. */
  lemma StraysAreSilent(h: Hashes, s: Store, op: Op)
    ensures var (s1, outcome) := Apply(h, s, op);
            var (s2, tidy) := Apply(h, Tidy(s), op);
            if KeptByStrays(s, op) && ValidBucketName(op.bucket)
            then s1 == s && outcome == Failed(BucketNotEmpty) && s2 == Tidy(s) - {op.bucket} && tidy == Done
            else Tidy(s1) == s2 && outcome == tidy
  {
    if op.DeleteBucket? || op.CreateBucket? {
      BucketsAmidStrays(h, s, op);
    } else if OnObjects(op) {
      ObjectsAmidStrays(h, s, op);
    } else {
      UploadsAmidStrays(h, s, op);
    }
  }

  lemma BucketsAmidStrays(h: Hashes, s: Store, op: Op)
    requires op.DeleteBucket? || op.CreateBucket?
    ensures var (s1, outcome) := Apply(h, s, op);
            var (s2, tidy) := Apply(h, Tidy(s), op);
            if KeptByStrays(s, op) && ValidBucketName(op.bucket)
            then s1 == s && outcome == Failed(BucketNotEmpty) && s2 == Tidy(s) - {op.bucket} && tidy == Done
            else Tidy(s1) == s2 && outcome == tidy
  {
    if op.CreateBucket? {
      TidyWith(s, op.bucket, Bucket(op.now, map[], map[], map[]));
    } else {
      assert Tidy(s - {op.bucket}) == Tidy(s) - {op.bucket};
    }
  }

  /** Two results a client cannot tell apart. */
  predicate Alike(r: (Store, Outcome), tidy: (Store, Outcome))
  {
    Tidy(r.0) == tidy.0 && r.1 == tidy.1
  }

  lemma ObjectsAmidStrays(h: Hashes, s: Store, op: Op)
    requires OnObjects(op)
    ensures Alike(Apply(h, s, op), Apply(h, Tidy(s), op))
  {
    match op
    case PutObject(b, k, body, meta, now) => PuttingAlike(h, s, b, k, body, meta, now);
    case GetObject(b, k) => FoundAlike(s, b, k);
    case HeadObject(b, k) => FoundAlike(s, b, k);
    case DeleteObject(b, k) => DeletingAlike(s, b, k);
    case DeleteObjects(b, keys) => DeletingAllAlike(s, b, keys);
    case CopyObject(b, k, b', k', now) => CopyingAlike(h, s, b, k, b', k', now);
    case RenameObject(b, k, b', k', now) => RenamingAlike(h, s, b, k, b', k', now);
    case ListObjects(b, options) => ListingAlike(s, b, options);
  }

  lemma FoundAlike(s: Store, b: string, k: string)
    ensures FindObject(s, b, k) == FindObject(Tidy(s), b, k)
  {
  }

  lemma PuttingAlike(h: Hashes, s: Store, b: string, k: string, body: Body, meta: ObjectMeta, now: int)
    ensures Alike(Putting(h, s, b, k, body, meta, now), Putting(h, Tidy(s), b, k, body, meta, now))
  {
    if b in s {
      TidyWithObject(s, b, k, ObjectFrom(h, k, body, meta, now));
    }
  }

  lemma DeletingAlike(s: Store, b: string, k: string)
    ensures Alike(Deleting(s, b, k), Deleting(Tidy(s), b, k))
  {
    if b in s {
      TidyWithoutObject(s, b, k);
    }
  }

  lemma DeletingAllAlike(s: Store, b: string, keys: seq<string>)
    ensures Alike(DeletingAll(s, b, keys), DeletingAll(Tidy(s), b, keys))
  {
    if b in s {
      TidyWithoutObjects(s, b, keys);
    }
  }

  lemma CopyingAlike(h: Hashes, s: Store, b: string, k: string, b': string, k': string, now: int)
    ensures Alike(Copying(h, s, b, k, b', k', now), Copying(h, Tidy(s), b, k, b', k', now))
  {
    FoundAlike(s, b, k);
    if FindObject(s, b, k).Ok? && b' in s {
      TidyWithObject(s, b', k', CopyOf(h, s[b].objects[k], k', now));
    }
  }

  lemma RenamingAlike(h: Hashes, s: Store, b: string, k: string, b': string, k': string, now: int)
    ensures Alike(Renaming(h, s, b, k, b', k', now), Renaming(h, Tidy(s), b, k, b', k', now))
  {
    FoundAlike(s, b, k);
    if FindObject(s, b, k).Ok? && b' in s {
      var o := CopyOf(h, s[b].objects[k], k', now);
      TidyWithObject(s, b', k', o);
      TidyWithoutObject(WithObject(s, b', k', o), b, k);
    }
  }

  lemma ListingAlike(s: Store, b: string, options: ListOptions)
    ensures Alike(ListingObjects(s, b, options), ListingObjects(Tidy(s), b, options))
  {
  }

  lemma UploadsAmidStrays(h: Hashes, s: Store, op: Op)
    requires !op.DeleteBucket? && !op.CreateBucket? && !OnObjects(op)
    ensures Alike(Apply(h, s, op), Apply(h, Tidy(s), op))
  {
    match op
    case CreateUpload(b, k, meta, now, id) => StartingAlike(s, b, k, meta, now, id);
    case UploadPart(b, k, id, n, body, now) => StoringAlike(h, s, b, k, id, n, body, now);
    case ListParts(b, k, id) => UploadAlike(s, b, k, id);
    case CompleteUpload(b, k, id, completed, now) => CompletingAlike(h, s, b, k, id, completed, now);
    case AbortUpload(b, k, id) => AbortingAlike(s, b, k, id);
  }

  lemma UploadAlike(s: Store, b: string, k: string, id: string)
    ensures FindUpload(Tidy(s), b, k, id) ==
            match FindUpload(s, b, k, id) case Ok(u) => Ok(TidyUpload(u)) case Err(e) => Err(e)
  {
  }

  lemma StartingAlike(s: Store, b: string, k: string, meta: ObjectMeta, now: int, id: string)
    ensures Alike(Starting(s, b, k, meta, now, id), Starting(Tidy(s), b, k, meta, now, id))
  {
    if b in s {
      TidyWithUpload(s, b, id, Upload(UploadState(id, k, now, meta), map[], map[]));
    }
  }

  lemma StoringAlike(h: Hashes, s: Store, b: string, k: string, id: string, n: int, body: Body, now: int)
    ensures Alike(StoringPart(h, s, b, k, id, n, body, now), StoringPart(h, Tidy(s), b, k, id, n, body, now))
  {
    UploadAlike(s, b, k, id);
    if ValidPartNumber(n) && FindUpload(s, b, k, id).Ok? {
      var u := s[b].uploads[id];
      TidyWithUpload(s, b, id, u.(parts := u.parts[n := PartFrom(h, n, body, now)]));
    }
  }

  lemma CompletingAlike(h: Hashes, s: Store, b: string, k: string, id: string, completed: seq<CompletedPart>, now: int)
    ensures Alike(Completing(h, s, b, k, id, completed, now), Completing(h, Tidy(s), b, k, id, completed, now))
  {
    UploadAlike(s, b, k, id);
    if FindUpload(s, b, k, id).Ok? {
      var u := s[b].uploads[id];
      var o := CompletedObject(h, k, u.state.meta, u.parts, completed, now);
      TidyWithObject(s, b, k, o);
      TidyWithoutUpload(WithObject(s, b, k, o), b, id);
    }
  }

  lemma AbortingAlike(s: Store, b: string, k: string, id: string)
    ensures Alike(Aborting(s, b, k, id), Aborting(Tidy(s), b, k, id))
  {
    UploadAlike(s, b, k, id);
    if FindUpload(s, b, k, id).Ok? {
      TidyWithoutUpload(s, b, id);
    }
  }

  /** A run that strays keep from deleting no bucket has the outcomes it would have without any. */
  lemma {:induction false} StraysAreSilentAlong(h: Hashes, s: Store, ops: seq<Op>)
    requires forall i :: 0 <= i < |ops| ==> !KeptByStrays(AfterRun(h, s, ops[..i]).0, ops[i])
    ensures var (s1, outcomes) := AfterRun(h, s, ops);
            AfterRun(h, Tidy(s), ops) == (Tidy(s1), outcomes)
  {
    if ops != [] {
      var n := |ops| - 1;
      var init := ops[..n];
      assert forall i :: 0 <= i < n ==> init[..i] == ops[..i];
      StraysAreSilentAlong(h, s, init);
      StraysAreSilent(h, AfterRun(h, s, init).0, ops[n]);
    }
  }

  // ----- uploads -----

  predicate Live(s: Store, b: string, id: string)
  {
    b in s && id in s[b].uploads
  }

  /** Does the request create this very upload? */
  predicate Creates(op: Op, b: string, id: string)
  {
    op.CreateUpload? && op.bucket == b && op.id == id
  }

  /** A successful completion or abort of the upload, or the deletion of its bucket. */
  ghost predicate Ends(h: Hashes, s: Store, op: Op, b: string, id: string)
  {
    && ((op.CompleteUpload? && op.bucket == b && op.id == id) || (op.AbortUpload? && op.bucket == b && op.id == id)
        || (op.DeleteBucket? && op.bucket == b))
    && !Apply(h, s, op).1.Failed?
  }

  lemma {:induction false} ObjectsGoUploadsStay(s: Store, b: string, keys: seq<string>)
    requires b in s
    ensures WithoutObjects(s, b, keys).Keys == s.Keys
    ensures forall c :: c in s ==> WithoutObjects(s, b, keys)[c].uploads == s[c].uploads
  {
    if keys != [] {
      ObjectsGoUploadsStay(s, b, keys[..|keys| - 1]);
    }
  }

  /** Requests that create or delete no bucket and concern no upload. */
  predicate OnObjects(op: Op)
  {
    || op.PutObject? || op.GetObject? || op.HeadObject? || op.DeleteObject? || op.DeleteObjects? || op.CopyObject?
    || op.RenameObject? || op.ListObjects?
  }

  lemma ObjectsComeAndGo(h: Hashes, s: Store, op: Op, b: string)
    requires OnObjects(op) && b in s
    ensures b in Apply(h, s, op).0 && Apply(h, s, op).0[b].uploads == s[b].uploads
  {
    if op.DeleteObjects? && op.bucket in s {
      ObjectsGoUploadsStay(s, op.bucket, op.keys);
    }
  }

  /** What one request does to one live upload: it ends it, or adds a part to it, or leaves it exactly as it is. A part
      is added exactly by a valid request for this upload whose body arrives, in place of any part of its number. */
  lemma UploadStep(h: Hashes, s: Store, op: Op, b: string, id: string)
    requires Live(s, b, id) && !Creates(op, b, id)
    ensures var s' := Apply(h, s, op).0;
            && (Live(s', b, id) <==> !Ends(h, s, op, b, id))
            && (Live(s', b, id) ==> s'[b].uploads[id].state == s[b].uploads[id].state)
            && (Live(s', b, id) && !(op.UploadPart? && op.bucket == b && op.id == id) ==>
              s'[b].uploads[id] == s[b].uploads[id])
            && (op.UploadPart? && op.bucket == b && op.id == id ==>
              var u, parts' := s[b].uploads[id], s'[b].uploads[id].parts;
              if 1 <= op.partNumber <= 10000 && op.key == u.state.key && !op.body.fails
              then op.partNumber in parts' && parts' == u.parts[op.partNumber := parts'[op.partNumber]]
                   && IsPartOf(h, parts'[op.partNumber], op.partNumber, Concat(op.body.chunks), op.now)
              else parts' == u.parts)
  {
    if OnObjects(op) {
      ObjectsComeAndGo(h, s, op, b);
    } else if op.UploadPart? {
      PlainTagQuotes(h, Concat(op.body.chunks));
    }
  }

  /** The part is these bytes, recorded under its number with their size, their quoted MD5 and the time. */
  predicate IsPartOf(h: Hashes, part: Part, n: int, data: Bytes, now: int)
  {
    && part.data == data && part.info.partNumber == n && part.info.size == |data| && part.info.lastModified == now
    && QuotesHex(part.info.etag, h.md5(data))
  }

  /** A request that does not create the upload does not bring it back. */
  lemma DeadStep(h: Hashes, s: Store, op: Op, b: string, id: string)
    requires !Live(s, b, id) && !Creates(op, b, id)
    ensures !Live(Apply(h, s, op).0, b, id)
  {
    if op.DeleteObjects? && op.bucket in s {
      ObjectsGoUploadsStay(s, op.bucket, op.keys);
    }
  }

  ghost predicate NeverCreates(ops: seq<Op>, b: string, id: string)
  {
    forall i :: 0 <= i < |ops| ==> !Creates(ops[i], b, id)
  }

  /** Some request of the run ends the upload. */
  ghost predicate EndsDuring(h: Hashes, s: Store, ops: seq<Op>, b: string, id: string)
  {
    exists i :: 0 <= i < |ops| && Ends(h, AfterRun(h, s, ops[..i]).0, ops[i], b, id)
  }

  /** Over any run, an upload once created accepts operations exactly until the first request that ends it. */
  lemma {:induction false} LiveUntilEnded(h: Hashes, s: Store, ops: seq<Op>, b: string, id: string)
    requires Live(s, b, id) && NeverCreates(ops, b, id)
    ensures var s' := AfterRun(h, s, ops).0;
            && (Live(s', b, id) <==> !EndsDuring(h, s, ops, b, id))
            && (Live(s', b, id) ==> s'[b].uploads[id].state == s[b].uploads[id].state)
  {
    if ops != [] {
      var n := |ops| - 1;
      var init := ops[..n];
      LiveUntilEnded(h, s, init, b, id);
      EndsDuringStep(h, s, ops, b, id);
      if Live(AfterRun(h, s, init).0, b, id) {
        UploadStep(h, AfterRun(h, s, init).0, ops[n], b, id);
      } else {
        DeadStep(h, AfterRun(h, s, init).0, ops[n], b, id);
      }
    }
  }

  lemma EndsDuringStep(h: Hashes, s: Store, ops: seq<Op>, b: string, id: string)
    requires ops != []
    ensures var n := |ops| - 1;
            EndsDuring(h, s, ops, b, id) <==>
            EndsDuring(h, s, ops[..n], b, id) || Ends(h, AfterRun(h, s, ops[..n]).0, ops[n], b, id)
  {
    var n := |ops| - 1;
    var init := ops[..n];
    assert forall i :: 0 <= i <= n ==> init[..i] == ops[..i];
    if EndsDuring(h, s, init, b, id) {
      var i :| 0 <= i < |init| && Ends(h, AfterRun(h, s, init[..i]).0, init[i], b, id);
      assert Ends(h, AfterRun(h, s, ops[..i]).0, ops[i], b, id);
    }
    if EndsDuring(h, s, ops, b, id) {
      var i :| 0 <= i < |ops| && Ends(h, AfterRun(h, s, ops[..i]).0, ops[i], b, id);
      if i < n {
        assert Ends(h, AfterRun(h, s, init[..i]).0, init[i], b, id);
      }
    }
  }

  /** An ended upload is rejected for ever, under any key: as an unknown upload, or for its bucket while that is
      absent. */
  lemma {:induction false} EndedForEver(h: Hashes, s: Store, ops: seq<Op>, b: string, k: string, id: string)
    requires !Live(s, b, id) && NeverCreates(ops, b, id)
    ensures var s' := AfterRun(h, s, ops).0;
            !Live(s', b, id) && FindUpload(s', b, k, id) == Err(if b in s' then UploadNotFound else BucketNotFound)
  {
    if ops != [] {
      EndedForEver(h, s, ops[..|ops| - 1], b, k, id);
      DeadStep(h, AfterRun(h, s, ops[..|ops| - 1]).0, ops[|ops| - 1], b, id);
    }
  }

  ghost predicate CompletesAt(h: Hashes, s: Store, ops: seq<Op>, i: int, b: string, id: string)
    requires 0 <= i < |ops|
  {
    && ops[i].CompleteUpload? && ops[i].bucket == b && ops[i].id == id
    && !Apply(h, AfterRun(h, s, ops[..i]).0, ops[i]).1.Failed?
  }

  /** A run that starts at another's end. */
  lemma {:induction false} RunsCompose(h: Hashes, s: Store, first: seq<Op>, second: seq<Op>)
    ensures AfterRun(h, s, first + second).0 == AfterRun(h, AfterRun(h, s, first).0, second).0
  {
    if second == [] {
      assert first + second == first;
    } else {
      var ops := first + second;
      assert ops[..|ops| - 1] == first + second[..|second| - 1];
      RunsCompose(h, s, first, second[..|second| - 1]);
    }
  }

  /** An upload is completed at most once. */
  lemma CompletedOnce(h: Hashes, s: Store, ops: seq<Op>, i: nat, j: nat, b: string, id: string)
    requires NeverCreates(ops, b, id) && i < j < |ops| && CompletesAt(h, s, ops, i, b, id)
    ensures !CompletesAt(h, s, ops, j, b, id)
  {
    var before := AfterRun(h, s, ops[..i]).0;
    assert ops[..i + 1][..i] == ops[..i];
    UploadStep(h, before, ops[i], b, id);
    var after := AfterRun(h, s, ops[..i + 1]).0;
    assert !Live(after, b, id);
    var rest := ops[i + 1..j];
    assert ops[..j] == ops[..i + 1] + rest;
    RunsCompose(h, s, ops[..i + 1], rest);
    assert NeverCreates(rest, b, id);
    if CompletesAt(h, s, ops, j, b, id) {
      EndedForEver(h, after, rest, b, ops[j].key, id);
    }
  }
}
