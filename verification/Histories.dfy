/** What clients can rely on over whole runs, said in terms of their own requests. */
module Histories {
  import opened Types
  import opened BucketNames
  import opened Layout
  import opened ObjectStore
  import opened Assembly
  import opened Runs

  /** The outcomes of a run are those of its requests, one by one. */
  lemma OutcomeAt(h: Hashes, s: Store, ops: seq<Op>, i: nat)
    requires i < |ops|
    ensures |AfterRun(h, s, ops).1| == |ops|
    ensures AfterRun(h, s, ops).1[i] == Apply(h, AfterRun(h, s, ops[..i]).0, ops[i]).1
  {
    OutcomesCount(h, s, ops);
    OutcomesCount(h, s, ops[..i + 1]);
    SameOutcome(h, s, ops, i);
    LastOutcome(h, s, ops[..i + 1]);
    assert ops[..i + 1][..i] == ops[..i];
  }

  lemma {:induction false} SameOutcome(h: Hashes, s: Store, ops: seq<Op>, i: nat)
    requires i < |ops| && |AfterRun(h, s, ops).1| == |ops| && |AfterRun(h, s, ops[..i + 1]).1| == i + 1
    ensures AfterRun(h, s, ops).1[i] == AfterRun(h, s, ops[..i + 1]).1[i]
    decreases |ops|
  {
    var n := |ops| - 1;
    if i < n {
      OutcomesCount(h, s, ops[..n]);
      EarlierOutcomes(h, s, ops);
      assert ops[..n][..i + 1] == ops[..i + 1];
      SameOutcome(h, s, ops[..n], i);
    } else {
      assert ops[..i + 1] == ops;
    }
  }

  lemma EarlierOutcomes(h: Hashes, s: Store, ops: seq<Op>)
    requires ops != []
    ensures AfterRun(h, s, ops[..|ops| - 1]).1 <= AfterRun(h, s, ops).1
  {
  }

  lemma LastOutcome(h: Hashes, s: Store, ops: seq<Op>)
    requires ops != []
    ensures var n := |ops| - 1;
            AfterRun(h, s, ops).1 ==
            AfterRun(h, s, ops[..n]).1 + [Apply(h, AfterRun(h, s, ops[..n]).0, ops[n]).1]
  {
  }

  lemma {:induction false} OutcomesCount(h: Hashes, s: Store, ops: seq<Op>)
    ensures |AfterRun(h, s, ops).1| == |ops|
  {
    if ops != [] {
      OutcomesCount(h, s, ops[..|ops| - 1]);
    }
  }

  lemma OneStep(h: Hashes, s: Store, ops: seq<Op>, i: nat)
    requires i < |ops|
    ensures AfterRun(h, s, ops[..i + 1]).0 == Apply(h, AfterRun(h, s, ops[..i]).0, ops[i]).0
  {
    assert ops[..i + 1][..i] == ops[..i];
  }

  lemma Halves(h: Hashes, s: Store, ops: seq<Op>, i: nat)
    requires i <= |ops|
    ensures AfterRun(h, s, ops).0 == AfterRun(h, AfterRun(h, s, ops[..i]).0, ops[i..]).0
  {
    RunsCompose(h, s, ops[..i], ops[i..]);
    assert ops[..i] + ops[i..] == ops;
  }

  // ----- which error a request is refused with -----

  function MissingObject(s: Store, b: string, k: string): Option<Error>
  {
    if b !in s then Some(BucketNotFound) else if k !in s[b].objects then Some(ObjectNotFound) else None
  }

  function MissingUpload(s: Store, b: string, k: string, id: string): Option<Error>
  {
    if b !in s then Some(BucketNotFound)
    else if id in s[b].uploads && s[b].uploads[id].state.key == k then None
    else Some(UploadNotFound)
  }

  function Else(first: Option<Error>, second: Option<Error>): Option<Error>
  {
    if first.Some? then first else second
  }

  function When(condition: bool, e: Error): Option<Error>
  {
    if condition then Some(e) else None
  }

  /** The first thing wrong with the request, if anything is. */
  ghost function Refusal(s: Store, op: Op): Option<Error>
  {
    match op
    case CreateBucket(b, _) =>
      Else(When(b == "", InvalidRequest),
        Else(When(!ValidBucketName(b), InvalidBucketName), When(b in s, BucketExists)))
    case DeleteBucket(b) =>
      Else(When(b == "", InvalidRequest), Else(When(!ValidBucketName(b), InvalidBucketName),
        Else(When(b !in s, BucketNotFound),
          When(b in s && (s[b].objects != map[] || s[b].strays != map[]), BucketNotEmpty))))
    case PutObject(b, _, body, _, _) => Else(When(b !in s, BucketNotFound), When(body.fails, BodyReadFailed))
    case GetObject(b, k) => MissingObject(s, b, k)
    case HeadObject(b, k) => MissingObject(s, b, k)
    case DeleteObject(b, _) => When(b !in s, BucketNotFound)
    case DeleteObjects(b, keys) => Else(When(|keys| > 1000, InvalidRequest), When(b !in s, BucketNotFound))
    case CopyObject(b, k, b', _, _) => Else(MissingObject(s, b, k), When(b' !in s, BucketNotFound))
    case RenameObject(b, k, b', _, _) => Else(MissingObject(s, b, k), When(b' !in s, BucketNotFound))
    case ListObjects(b, _) => When(b !in s, BucketNotFound)
    case CreateUpload(b, _, _, _, _) => When(b !in s, BucketNotFound)
    case UploadPart(b, k, id, n, body, _) =>
      Else(When(n < 1 || n > 10000, InvalidPart), Else(MissingUpload(s, b, k, id), When(body.fails, BodyReadFailed)))
    case ListParts(b, k, id) => MissingUpload(s, b, k, id)
    case CompleteUpload(b, k, id, completed, _) =>
      Else(MissingUpload(s, b, k, id),
        When(b in s && id in s[b].uploads && !MayBeJoined(s[b].uploads[id].parts, completed), InvalidPart))
    case AbortUpload(b, k, id) => MissingUpload(s, b, k, id)
  }

  /** A request fails exactly when something is wrong with it, with that error, and then changes nothing. */
  lemma RefusedIff(h: Hashes, s: Store, op: Op)
    ensures var (s', outcome) := Apply(h, s, op);
            match Refusal(s, op)
            case Some(e) => outcome == Failed(e) && s' == s
            case None => !outcome.Failed?
  {
    if op.CompleteUpload? && MissingUpload(s, op.bucket, op.key, op.id).None? {
      AcceptableMayBeJoined(s[op.bucket].uploads[op.id].parts, op.completed);
    }
  }

  // ----- objects stay until they are written or deleted -----

  /** May the request write or delete the object?  Deleting its bucket fails as long as the object is there. */
  predicate Touches(op: Op, b: string, k: string)
  {
    match op
    case PutObject(b', k', _, _, _) => b' == b && k' == k
    case DeleteObject(b', k') => b' == b && k' == k
    case DeleteObjects(b', keys) => b' == b && k in keys
    case CopyObject(_, _, b', k', _) => b' == b && k' == k
    case RenameObject(b', k', b'', k'', _) => (b' == b && k' == k) || (b'' == b && k'' == k)
    case CompleteUpload(b', k', _, _, _) => b' == b && k' == k
    case _ => false
  }

  lemma {:induction false} OthersStay(s: Store, b: string, keys: seq<string>)
    requires b in s
    ensures var s' := WithoutObjects(s, b, keys);
            && s'.Keys == s.Keys
            && (forall k :: k in s[b].objects && k !in keys ==>
                  k in s'[b].objects && s'[b].objects[k] == s[b].objects[k])
            && (forall k :: k in s'[b].objects ==> k in s[b].objects && k !in keys)
            && (forall c :: c in s && c != b ==> s'[c] == s[c])
  {
    if keys != [] {
      var init, last := keys[..|keys| - 1], keys[|keys| - 1];
      OthersStay(s, b, init);
      assert keys == init + [last];
    }
  }

  lemma UntouchedStays(h: Hashes, s: Store, op: Op, b: string, k: string)
    requires b in s && k in s[b].objects && !Touches(op, b, k)
    ensures FindObject(Apply(h, s, op).0, b, k) == FindObject(s, b, k)
  {
    if op.DeleteObjects? && op.bucket in s {
      OthersStay(s, op.bucket, op.keys);
    }
  }

  lemma UntouchedStaysAway(h: Hashes, s: Store, op: Op, b: string, k: string)
    requires FindObject(s, b, k).Err? && !Touches(op, b, k)
    ensures FindObject(Apply(h, s, op).0, b, k).Err?
  {
    if op.DeleteObjects? && op.bucket in s {
      OthersStay(s, op.bucket, op.keys);
    }
  }

  /** Over any run that does not touch the object, it is found as it was, or is still not found. */
  lemma {:induction false} ObjectStays(h: Hashes, s: Store, ops: seq<Op>, b: string, k: string)
    requires forall i :: 0 <= i < |ops| ==> !Touches(ops[i], b, k)
    ensures var found, later := FindObject(s, b, k), FindObject(AfterRun(h, s, ops).0, b, k);
            (found.Ok? ==> later == found) && (found.Err? ==> later.Err?)
  {
    if ops != [] {
      var n := |ops| - 1;
      var before := AfterRun(h, s, ops[..n]).0;
      ObjectStays(h, s, ops[..n], b, k);
      if FindObject(before, b, k).Ok? {
        UntouchedStays(h, before, ops[n], b, k);
      } else {
        UntouchedStaysAway(h, before, ops[n], b, k);
      }
    }
  }

  lemma StaysAfter(h: Hashes, s: Store, ops: seq<Op>, i: nat, b: string, k: string)
    requires i < |ops| && forall j :: i < j < |ops| ==> !Touches(ops[j], b, k)
    ensures var found := FindObject(Apply(h, AfterRun(h, s, ops[..i]).0, ops[i]).0, b, k);
            var later := FindObject(AfterRun(h, s, ops).0, b, k);
            (found.Ok? ==> later == found) && (found.Err? ==> later.Err?)
  {
    OneStep(h, s, ops, i);
    Halves(h, s, ops, i + 1);
    ObjectStays(h, AfterRun(h, s, ops[..i + 1]).0, ops[i + 1..], b, k);
  }

  // ----- what was put is read -----

  /** Getting the object fetches these data with this metadata, and its head has the metadata alone. */
  ghost predicate ReadsAs(h: Hashes, s: Store, b: string, k: string, data: Bytes, m: ObjectMeta)
  {
    Apply(h, s, GetObject(b, k)).1 == Fetched(data, m) && Apply(h, s, HeadObject(b, k)).1 == Described(m)
  }

  lemma FoundIsRead(h: Hashes, s: Store, b: string, k: string, o: Object)
    requires FindObject(s, b, k) == Ok(o)
    ensures ReadsAs(h, s, b, k, o.data, o.meta)
  {
  }

  /** Metadata of a plain object: what was given with the data, and their quoted MD5. */
  predicate IsPlain(h: Hashes, m: ObjectMeta, k: string, data: Bytes, contentType: string,
                    userMetadata: map<string, string>, now: int)
  {
    Records(m, k, data, contentType, userMetadata, now) && QuotesHex(m.etag, h.md5(data))
  }

  lemma PutIsStored(h: Hashes, s: Store, b: string, k: string, body: Body, meta: ObjectMeta, now: int)
    requires b in s && !body.fails
    ensures var o := FindObject(Putting(h, s, b, k, body, meta, now).0, b, k);
            && o.Ok? && o.value.data == Concat(body.chunks)
            && IsPlain(h, o.value.meta, k, o.value.data, meta.contentType, meta.userMetadata, now)
  {
    StoredRecords(h, k, Concat(body.chunks), meta, now);
  }

  /** An object once put is read with the body and the metadata given, until it is written again or deleted, whatever
      else clients do meanwhile. */
  lemma PutIsRead(h: Hashes, s: Store, ops: seq<Op>, i: nat) returns (m: ObjectMeta)
    requires i < |ops| && ops[i].PutObject? && |AfterRun(h, s, ops).1| == |ops| && !AfterRun(h, s, ops).1[i].Failed?
    requires forall j :: i < j < |ops| ==> !Touches(ops[j], ops[i].bucket, ops[i].key)
    ensures var data := Concat(ops[i].body.chunks);
            && ReadsAs(h, AfterRun(h, s, ops).0, ops[i].bucket, ops[i].key, data, m)
            && IsPlain(h, m, ops[i].key, data, ops[i].meta.contentType, ops[i].meta.userMetadata, ops[i].now)
    ensures AfterRun(h, s, ops).1[i] == Done
  {
    var b, k, before := ops[i].bucket, ops[i].key, AfterRun(h, s, ops[..i]).0;
    OutcomeAt(h, s, ops, i);
    PutIsStored(h, before, b, k, ops[i].body, ops[i].meta, ops[i].now);
    StaysAfter(h, s, ops, i, b, k);
    var o := FindObject(AfterRun(h, s, ops).0, b, k).value;
    FoundIsRead(h, AfterRun(h, s, ops).0, b, k, o);
    m := o.meta;
  }

  lemma CopyIsFound(h: Hashes, s: Store, b: string, k: string, b': string, k': string, now: int)
    requires FindObject(s, b, k).Ok? && b' in s && (b != b' || k != k')
    ensures var from := FindObject(s, b, k).value;
            var o, o' := FindObject(Copying(h, s, b, k, b', k', now).0, b', k'),
                FindObject(Renaming(h, s, b, k, b', k', now).0, b', k');
            && o == o' && o.Ok? && o.value.data == from.data
            && IsPlain(h, o.value.meta, k', from.data, from.meta.contentType, from.meta.userMetadata, now)
  {
    var from := FindObject(s, b, k).value;
    StoredRecords(h, k', from.data, CopiedMeta(from.meta), now);
  }

  /** The destination of a copy or a rename is read as what the source was then. */
  lemma CopyIsRead(h: Hashes, s: Store, ops: seq<Op>, i: nat) returns (from: Object, m: ObjectMeta)
    requires i < |ops| && (ops[i].CopyObject? || ops[i].RenameObject?)
    requires |AfterRun(h, s, ops).1| == |ops| && !AfterRun(h, s, ops).1[i].Failed?
    requires ops[i].bucket != ops[i].dstBucket || ops[i].key != ops[i].dstKey
    requires forall j :: i < j < |ops| ==> !Touches(ops[j], ops[i].dstBucket, ops[i].dstKey)
    ensures FindObject(AfterRun(h, s, ops[..i]).0, ops[i].bucket, ops[i].key) == Ok(from)
    ensures ReadsAs(h, AfterRun(h, s, ops).0, ops[i].dstBucket, ops[i].dstKey, from.data, m)
    ensures IsPlain(h, m, ops[i].dstKey, from.data, from.meta.contentType, from.meta.userMetadata, ops[i].now)
    ensures AfterRun(h, s, ops).1[i] == Described(m)
  {
    var b, k, b', k' := ops[i].bucket, ops[i].key, ops[i].dstBucket, ops[i].dstKey;
    var before := AfterRun(h, s, ops[..i]).0;
    OutcomeAt(h, s, ops, i);
    from := FindObject(before, b, k).value;
    CopyIsFound(h, before, b, k, b', k', ops[i].now);
    StaysAfter(h, s, ops, i, b', k');
    var o := FindObject(AfterRun(h, s, ops).0, b', k').value;
    FoundIsRead(h, AfterRun(h, s, ops).0, b', k', o);
    m := o.meta;
  }

  /** Does the request delete the object, or move it away? */
  predicate Removes(op: Op, b: string, k: string)
  {
    || (op.DeleteObject? && op.bucket == b && op.key == k)
    || (op.DeleteObjects? && op.bucket == b && k in op.keys)
    || (op.RenameObject? && op.bucket == b && op.key == k && (op.dstBucket != b || op.dstKey != k))
  }

  lemma RemovedIsGone(h: Hashes, s: Store, op: Op, b: string, k: string)
    requires Removes(op, b, k) && !Apply(h, s, op).1.Failed?
    ensures FindObject(Apply(h, s, op).0, b, k) == Err(ObjectNotFound)
  {
    if op.DeleteObjects? {
      OthersStay(s, b, op.keys);
    }
  }

  /** An object once deleted or moved away is not found, until it is written again. */
  lemma RemovedIsNotRead(h: Hashes, s: Store, ops: seq<Op>, i: nat, b: string, k: string)
    requires i < |ops| && Removes(ops[i], b, k)
    requires |AfterRun(h, s, ops).1| == |ops| && !AfterRun(h, s, ops).1[i].Failed?
    requires forall j :: i < j < |ops| ==> !Touches(ops[j], b, k)
    ensures var after := AfterRun(h, s, ops).0;
            Apply(h, after, GetObject(b, k)).1 == Failed(if b in after then ObjectNotFound else BucketNotFound)
  {
    OutcomeAt(h, s, ops, i);
    RemovedIsGone(h, AfterRun(h, s, ops[..i]).0, ops[i], b, k);
    StaysAfter(h, s, ops, i, b, k);
  }

  // ----- what was uploaded in parts is read -----

  /** The bytes sent for each part number, the last ones that arrived. */
  function Sent(ops: seq<Op>, b: string, k: string, id: string): map<int, Bytes>
  {
    if ops == [] then map[]
    else SentOneMore(Sent(ops[..|ops| - 1], b, k, id), ops[|ops| - 1], b, k, id)
  }

  function SentOneMore(sent: map<int, Bytes>, op: Op, b: string, k: string, id: string): map<int, Bytes>
  {
    if op.UploadPart? && op.bucket == b && op.key == k && op.id == id && 1 <= op.partNumber <= 10000 && !op.body.fails
    then sent[op.partNumber := Concat(op.body.chunks)]
    else sent
  }

  function Md5sOf(h: Hashes, pieces: map<int, Bytes>): map<int, Bytes>
  {
    map n | n in pieces :: h.md5(pieces[n])
  }

  /** Parts are recorded under their numbers, with the sizes and the quoted MD5s of their bytes. */
  predicate AreRecorded(h: Hashes, parts: map<nat, Part>)
  {
    forall n :: n in parts ==>
      && 1 <= n <= 10000 && parts[n].info.partNumber == n && parts[n].info.size == |parts[n].data|
      && QuotesHex(parts[n].info.etag, h.md5(parts[n].data))
  }

  /** The upload is in the state it was started with, and its parts are those sent. */
  predicate HasSent(h: Hashes, u: Upload, state: UploadState, sent: map<int, Bytes>)
  {
    u.state == state && Datas(u.parts) == sent && AreRecorded(h, u.parts)
  }

  lemma SentStep(h: Hashes, s: Store, op: Op, b: string, id: string, state: UploadState, sent: map<int, Bytes>)
    requires Live(s, b, id) && HasSent(h, s[b].uploads[id], state, sent) && !Creates(op, b, id)
    requires Live(Apply(h, s, op).0, b, id)
    ensures HasSent(h, Apply(h, s, op).0[b].uploads[id], state, SentOneMore(sent, op, b, state.key, id))
  {
    UploadStep(h, s, op, b, id);
    if op.UploadPart? && op.bucket == b && op.id == id {
      var u, u' := s[b].uploads[id], Apply(h, s, op).0[b].uploads[id];
      if 1 <= op.partNumber <= 10000 && op.key == state.key && !op.body.fails {
        SentPart(h, u, u', state, sent, op.partNumber, Concat(op.body.chunks), op.now);
      } else {
        assert u' == Upload(u.state, u.parts, u'.strays);
      }
    }
  }

  lemma SentPart(h: Hashes, u: Upload, u': Upload, state: UploadState, sent: map<int, Bytes>, n: int, data: Bytes,
                 now: int)
    requires HasSent(h, u, state, sent) && u'.state == u.state && 1 <= n <= 10000 && n in u'.parts
    requires u'.parts == u.parts[n := u'.parts[n]] && IsPartOf(h, u'.parts[n], n, data, now)
    ensures HasSent(h, u', state, sent[n := data])
  {
  }

  /** A live upload's parts are those sent since it was started. */
  lemma {:induction false} PartsAreAsSent(h: Hashes, s: Store, ops: seq<Op>, b: string, k: string, id: string)
    requires Live(s, b, id) && s[b].uploads[id].parts == map[] && s[b].uploads[id].state.key == k
    requires NeverCreates(ops, b, id) && Live(AfterRun(h, s, ops).0, b, id)
    ensures HasSent(h, AfterRun(h, s, ops).0[b].uploads[id], s[b].uploads[id].state, Sent(ops, b, k, id))
  {
    if ops != [] {
      var n := |ops| - 1;
      var before := AfterRun(h, s, ops[..n]).0;
      if !Live(before, b, id) {
        DeadStep(h, before, ops[n], b, id);
      }
      PartsAreAsSent(h, s, ops[..n], b, k, id);
      SentStep(h, before, ops[n], b, id, s[b].uploads[id].state, Sent(ops[..n], b, k, id));
    }
  }

  /** An upload that the run starts at `i` and that is live at the end. */
  ghost predicate Uploading(h: Hashes, s: Store, ops: seq<Op>, i: nat)
  {
    && i < |ops| && ops[i].CreateUpload? && !Apply(h, AfterRun(h, s, ops[..i]).0, ops[i]).1.Failed?
    && NeverCreates(ops[i + 1..], ops[i].bucket, ops[i].id)
    && Live(AfterRun(h, s, ops).0, ops[i].bucket, ops[i].id)
  }

  lemma UploadIsAsSent(h: Hashes, s: Store, ops: seq<Op>, i: nat)
    requires Uploading(h, s, ops, i)
    ensures var u := AfterRun(h, s, ops).0[ops[i].bucket].uploads[ops[i].id];
            && Apply(h, AfterRun(h, s, ops[..i]).0, ops[i]).1 == Started(ops[i].id)
            && u.state.key == ops[i].key && u.state.meta == ops[i].meta && AreRecorded(h, u.parts)
            && Datas(u.parts) == Sent(ops[i + 1..], ops[i].bucket, ops[i].key, ops[i].id)
  {
    var b, k, id := ops[i].bucket, ops[i].key, ops[i].id;
    OneStep(h, s, ops, i);
    Halves(h, s, ops, i + 1);
    PartsAreAsSent(h, AfterRun(h, s, ops[..i + 1]).0, ops[i + 1..], b, k, id);
  }

  /** The selections that complete an upload: some of the parts sent, none twice, each with the quoted MD5 of its
      bytes. */
  predicate MayComplete(h: Hashes, sent: map<int, Bytes>, completed: seq<CompletedPart>)
  {
    && |completed| >= 1
    && (forall i, j :: 0 <= i < j < |completed| ==> completed[i].partNumber != completed[j].partNumber)
    && (forall i :: 0 <= i < |completed| ==>
          && 1 <= completed[i].partNumber <= 10000 && completed[i].partNumber in sent
          && QuotesHex(completed[i].etag, h.md5(sent[completed[i].partNumber])))
  }

  lemma JoinedMayComplete(h: Hashes, parts: map<nat, Part>, completed: seq<CompletedPart>)
    requires AreRecorded(h, parts)
    ensures MayBeJoined(parts, completed) <==> MayComplete(h, Datas(parts), completed)
  {
    forall i | 0 <= i < |completed| && completed[i].partNumber in parts
      ensures QuotesHex(completed[i].etag, h.md5(parts[completed[i].partNumber].data)) <==>
              completed[i].etag == parts[completed[i].partNumber].info.etag
    {
      var part := parts[completed[i].partNumber];
      QuotedIsTag(completed[i].etag, h.md5(part.data));
      QuotedIsTag(part.info.etag, h.md5(part.data));
    }
  }

  /** A completion of a live upload is accepted exactly for the key it was started with and a selection of the parts
      sent. */
  lemma CompletedIffSent(h: Hashes, s: Store, ops: seq<Op>, i: nat, k: string, completed: seq<CompletedPart>, now: int)
    requires Uploading(h, s, ops, i)
    ensures var (b, id) := (ops[i].bucket, ops[i].id);
            !Apply(h, AfterRun(h, s, ops).0, CompleteUpload(b, k, id, completed, now)).1.Failed? <==>
            k == ops[i].key && MayComplete(h, Sent(ops[i + 1..], b, ops[i].key, id), completed)
  {
    UploadIsAsSent(h, s, ops, i);
    var u := AfterRun(h, s, ops).0[ops[i].bucket].uploads[ops[i].id];
    AcceptableMayBeJoined(u.parts, completed);
    JoinedMayComplete(h, u.parts, completed);
  }

  /** Its parts are listed as sent: each number once, in ascending order, with size and quoted MD5. */
  lemma PartsAreListedAsSent(h: Hashes, s: Store, ops: seq<Op>, i: nat) returns (ps: seq<MultipartPart>)
    requires Uploading(h, s, ops, i)
    ensures Apply(h, AfterRun(h, s, ops).0, ListParts(ops[i].bucket, ops[i].key, ops[i].id)).1 == Parts(ps)
    ensures forall x, y :: 0 <= x < y < |ps| ==> ps[x].partNumber < ps[y].partNumber
    ensures var sent := Sent(ops[i + 1..], ops[i].bucket, ops[i].key, ops[i].id);
            && (forall n :: n in sent <==> exists x :: 0 <= x < |ps| && ps[x].partNumber == n)
            && (forall x :: 0 <= x < |ps| ==>
                  && ps[x].partNumber in sent && ps[x].size == |sent[ps[x].partNumber]|
                  && QuotesHex(ps[x].etag, h.md5(sent[ps[x].partNumber])))
  {
    UploadIsAsSent(h, s, ops, i);
    var parts := AfterRun(h, s, ops).0[ops[i].bucket].uploads[ops[i].id].parts;
    ps := PartsUpTo(parts, 10000);
    ListedAscend(h, parts, 10000);
    forall n | n in parts
      ensures exists x :: 0 <= x < |ps| && ps[x].partNumber == n
    {
      assert parts[n].info in ps;
    }
    forall x | 0 <= x < |ps|
      ensures ps[x].partNumber in parts && ps[x] == parts[ps[x].partNumber].info
    {
      assert ps[x] in ps;
    }
  }

  lemma {:induction false} ListedAscend(h: Hashes, parts: map<nat, Part>, n: nat)
    requires AreRecorded(h, parts)
    ensures var ps := PartsUpTo(parts, n);
            && (forall x, y :: 0 <= x < y < |ps| ==> ps[x].partNumber < ps[y].partNumber)
            && (forall p :: p in ps <==> p.partNumber in parts && p.partNumber <= n && p == parts[p.partNumber].info)
  {
    if n > 0 {
      ListedAscend(h, parts, n - 1);
      var before := PartsUpTo(parts, n - 1);
      assert forall x :: 0 <= x < |before| ==> before[x] in before;
    }
  }

  /** Part uploads to it are accepted exactly for that key, a number from 1 to 10000, and a body that arrives. */
  lemma PartIsTakenIff(h: Hashes, s: Store, ops: seq<Op>, i: nat, k: string, n: int, body: Body, now: int)
    requires Uploading(h, s, ops, i)
    ensures var outcome := Apply(h, AfterRun(h, s, ops).0, UploadPart(ops[i].bucket, k, ops[i].id, n, body, now)).1;
            if k == ops[i].key && 1 <= n <= 10000 && !body.fails
            then outcome.Stored? && IsPartOf(h, Part(Concat(body.chunks), outcome.part), n, Concat(body.chunks), now)
            else outcome.Failed?
  {
    UploadIsAsSent(h, s, ops, i);
    PlainTagQuotes(h, Concat(body.chunks));
  }

  /** The object is the upload's selected parts joined, with what the upload was started with. */
  ghost predicate IsCompletion(h: Hashes, o: Object, k: string, u: Upload, completed: seq<CompletedPart>, now: int)
  {
    && Joins(o.data, Datas(u.parts), completed)
    && Records(o.meta, k, o.data, u.state.meta.contentType, u.state.meta.userMetadata, now)
    && exists digests ::
         Joins(digests, Md5sOf(h, Datas(u.parts)), completed)
           && QuotesComposite(o.meta.etag, h.md5(digests), |completed|)
  }

  lemma CompletionIsFound(h: Hashes, s: Store, b: string, k: string, id: string, completed: seq<CompletedPart>,
                          now: int)
    requires !Completing(h, s, b, k, id, completed, now).1.Failed? && AreRecorded(h, s[b].uploads[id].parts)
    ensures var u, o := s[b].uploads[id], FindObject(Completing(h, s, b, k, id, completed, now).0, b, k);
            o.Ok? && IsCompletion(h, o.value, k, u, completed, now)
  {
    var u := s[b].uploads[id];
    TaggedIsSelectable(h, u.parts, completed);
    CompletedIsJoined(h, k, u.state.meta, u.parts, completed, now);
    TagDigestsAreMd5s(h, u.parts);
  }

  lemma TagDigestsAreMd5s(h: Hashes, parts: map<nat, Part>)
    requires AreRecorded(h, parts)
    ensures TagDigests(parts) == Md5sOf(h, Datas(parts))
  {
    forall n | n in parts
      ensures TagDigest(parts[n].info.etag) == Some(h.md5(parts[n].data))
    {
      QuotedIsTag(parts[n].info.etag, h.md5(parts[n].data));
      TagSpellsMd5(h, parts[n].data);
    }
  }

  lemma TaggedIsSelectable(h: Hashes, parts: map<nat, Part>, completed: seq<CompletedPart>)
    requires AreRecorded(h, parts) && Acceptable(parts, completed)
    ensures Selectable(parts, completed)
  {
    forall i | 0 <= i < |completed|
      ensures Usable(parts, completed[i])
    {
      assert Matches(parts, completed[i]);
      var part := parts[completed[i].partNumber];
      QuotedIsTag(part.info.etag, h.md5(part.data));
      TagSpellsMd5(h, part.data);
    }
  }

  /** A completed object is read as what was sent for the selected parts, in ascending number, with the content type and
      the user metadata given when the upload was started, until it is written again or deleted. */
  lemma CompletionIsRead(h: Hashes, s: Store, ops: seq<Op>, i: nat, j: nat)
    returns (data: Bytes, digests: Bytes, m: ObjectMeta)
    requires i < j < |ops| && Uploading(h, s, ops[..j], i)
    requires ops[j].CompleteUpload? && ops[j].bucket == ops[i].bucket && ops[j].id == ops[i].id
    requires |AfterRun(h, s, ops).1| == |ops| && !AfterRun(h, s, ops).1[j].Failed?
    requires forall x :: j < x < |ops| ==> !Touches(ops[x], ops[j].bucket, ops[j].key)
    ensures ops[j].key == ops[i].key
    ensures ReadsAs(h, AfterRun(h, s, ops).0, ops[i].bucket, ops[i].key, data, m)
    ensures var sent := Sent(ops[i + 1..j], ops[i].bucket, ops[i].key, ops[i].id);
            && Joins(data, sent, ops[j].completed) && Joins(digests, Md5sOf(h, sent), ops[j].completed)
    ensures Records(m, ops[i].key, data, ops[i].meta.contentType, ops[i].meta.userMetadata, ops[j].now)
    ensures QuotesComposite(m.etag, h.md5(digests), |ops[j].completed|)
    ensures AfterRun(h, s, ops).1[j] == Described(m)
  {
    var b, k, id, until := ops[i].bucket, ops[j].key, ops[i].id, ops[..j];
    var before := AfterRun(h, s, until).0;
    assert until[i] == ops[i] && until[i + 1..] == ops[i + 1..j];
    OutcomeAt(h, s, ops, j);
    UploadIsAsSent(h, s, until, i);
    CompletionIsFound(h, before, b, k, id, ops[j].completed, ops[j].now);
    StaysAfter(h, s, ops, j, b, k);
    var o := FindObject(AfterRun(h, s, ops).0, b, k).value;
    FoundIsRead(h, AfterRun(h, s, ops).0, b, k, o);
    data, m := o.data, o.meta;
    var sent := Sent(ops[i + 1..j], b, ops[i].key, id);
    digests :| Joins(digests, Md5sOf(h, sent), ops[j].completed)
      && QuotesComposite(m.etag, h.md5(digests), |ops[j].completed|);
  }
}
