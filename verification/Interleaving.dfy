/** Requests running side by side, one file-system step at a time.  Data files are written under temporary names and
    renamed into place; a file that is in place is never written again. */
module Interleaving {
  import opened Types
  import opened Encoding
  import opened Layout
  import opened FileSystem
  import opened Trees
  import opened Backend

  // ----- kinds of paths -----

  predicate IsDocument(p: Path)
  {
    p != [] && HasSuffix(p[|p| - 1], ".json")
  }

  predicate IsTemporary(p: Path)
  {
    p != [] && p[|p| - 1] != "" && p[|p| - 1][0] == '.' && !IsDocument(p)
  }

  /** Where the data of objects and parts goes. */
  predicate IsData(p: Path)
  {
    p != [] && !IsTemporary(p) && !IsDocument(p)
  }

  lemma EndsInJson(dir: Path, stem: string)
    ensures IsDocument(dir + [stem + ".json"])
  {
    var name := stem + ".json";
    assert name[|name| - 5..] == ".json";
    assert (dir + [name])[|dir|] == name;
  }

  /** Objects and parts have data paths, records and metadata have document paths, and the random digits of a
      temporary name make a temporary path. */
  lemma KindsOfPaths(h: Hashes, bucket: string, key: string, dir: Path, n: nat, digits: string)
    requires |h.sha256(key)| == 32 && AllDigits(digits)
    ensures IsData(ObjectPath(h, bucket, key)) && IsData(PartDataPath(dir, n))
    ensures IsDocument(MetadataPath(h, bucket, key)) && IsDocument(PartMetadataPath(dir, n))
            && IsDocument(UploadPath(dir)) && IsDocument(RecordPath(bucket))
    ensures IsTemporary(TempPath(bucket, digits)) && IsTemporary(CombinedPath(dir, digits))
            && IsTemporary(dir + [".part-" + digits])
  {
    DataKinds(h, bucket, key, dir, n);
    DocumentKinds(h, bucket, key, dir, n);
    RecordIsDocument(bucket);
    TemporaryKind(ObjectsDir(bucket), ".tmp-", digits);
    TemporaryKind(dir, ".combined-", digits);
    TemporaryKind(dir, ".part-", digits);
  }

  lemma DataKinds(h: Hashes, bucket: string, key: string, dir: Path, n: nat)
    requires |h.sha256(key)| == 32
    ensures IsData(ObjectPath(h, bucket, key)) && IsData(PartDataPath(dir, n))
  {
    HexRoundTrip(h.sha256(key));
    NoJson(ObjectsDir(bucket), ObjectFileName(h, key));
    NoJson(dir, PartName(n) + ".data");
    assert PartName(n)[0] == 'p';
  }

  lemma DocumentKinds(h: Hashes, bucket: string, key: string, dir: Path, n: nat)
    ensures IsDocument(MetadataPath(h, bucket, key)) && IsDocument(PartMetadataPath(dir, n))
            && IsDocument(UploadPath(dir))
  {
    EndsInJson(MetadataDir(bucket), ObjectFileName(h, key));
    EndsInJson(dir, PartName(n));
    UploadIsDocument(dir);
  }

  lemma UploadIsDocument(dir: Path)
    ensures IsDocument(UploadPath(dir))
  {
    var name := "upload.json";
    assert name[6..] == ".json";
  }

  lemma RecordIsDocument(bucket: string)
    ensures IsDocument(RecordPath(bucket))
  {
    var name := ".bucket.json";
    assert name[7..] == ".json";
  }

  lemma TemporaryKind(dir: Path, start: string, digits: string)
    requires start != "" && start[0] == '.' && start[|start| - 1] != 'n' && AllDigits(digits)
    ensures IsTemporary(dir + [start + digits])
  {
    DigitsAtEnd(start, digits);
    NoJson(dir, start + digits);
  }

  lemma DigitsAtEnd(before: string, digits: string)
    requires before != "" && before[|before| - 1] != 'n' && AllDigits(digits)
    ensures var name := before + digits; name[|name| - 1] != 'n'
  {
  }

  lemma NoJson(dir: Path, name: string)
    requires name != "" && name[|name| - 1] != 'n'
    ensures !IsDocument(dir + [name])
  {
    assert (dir + [name])[|dir|] == name;
    assert ".json"[4] == 'n';
    assert |name| >= 5 ==> name[|name| - 5..][4] == name[|name| - 1];
  }

  // ----- states -----

  /** Where a file's bytes come from: a client's body, of which some chunks have been delivered, or files: those opened
      so far, the last of them read up to `offset`, and those still to open. */
  datatype Source =
    | Client(body: Body, sent: nat)
    | Files(todo: seq<Path>, files: seq<Inode>, offset: nat)

  /** A put, copy or part upload ends by renaming its file to a path; a completion's combined file is only closed. */
  datatype Target = Rename(path: Path) | Close

  datatype Writer = Writer(target: Target, tmp: Path, ino: Inode, source: Source, closed: bool)

  datatype Reader = Reader(ino: Inode, got: Bytes)

  /** A finished file: its bytes, what they were made from, and where the request wanted them. */
  datatype Seal = Seal(bytes: Bytes, source: Source, target: Target)

  /** The file system, the files being written, those being read, the documents, and three records kept for the proof,
      on which no step depends: the finished files, and which writer an inode and a temporary name were made for. */
  datatype State = State(
    fs: FS,
    writers: map<nat, Writer>,
    readers: map<nat, Reader>,
    documents: set<Inode>,
    sealed: map<Inode, Seal>,
    owner: map<Inode, nat>,
    holder: map<Path, nat>)

  datatype Step =
    | Begin(w: nat, target: Target, tmp: Path, source: Source)
    | Send(w: nat)
    | OpenNext(w: nat)
    | Pump(w: nat, n: nat)
    | Finish(w: nat)
    | Drop(w: nat)
    | Remove(path: Path)
    | OpenDocument(path: Path)
    | WriteDocument(ino: Inode, doc: Document)
    | OpenObject(r: nat, path: Path)
    | Read(r: nat, n: nat)

  function DataOf(fs: FS, ino: Inode): Bytes
  {
    if ino in fs.inodes && fs.inodes[ino].Raw? then fs.inodes[ino].bytes else []
  }

  /** Everything has been delivered, and nothing failed. */
  predicate Exhausted(fs: FS, source: Source)
  {
    match source
    case Client(body, sent) => sent == |body.chunks| && !body.fails
    case Files(todo, files, offset) => todo == [] && (files == [] || offset == |DataOf(fs, files[|files| - 1])|)
  }

  /** A source as a request starts with it: nothing delivered yet.  A copy starts from its open reader, the put that
      ends a completion from the combined file it has closed. */
  predicate Unread(st: State, source: Source)
  {
    match source
    case Client(_, sent) => sent == 0
    case Files(todo, files, offset) =>
      && offset == 0 && (forall i :: 0 <= i < |todo| ==> IsData(todo[i]))
      && (todo != [] || files != [])
      && (files == [] || (|files| == 1 && (IsRead(st, files[0]) || IsCombined(st, files[0]))))
  }

  predicate IsRead(st: State, ino: Inode)
  {
    exists r :: r in st.readers && st.readers[r].ino == ino
  }

  predicate IsCombined(st: State, ino: Inode)
  {
    exists c :: c in st.writers && st.writers[c].closed && st.writers[c].tmp in st.fs.names
      && st.fs.names[st.writers[c].tmp] == ino
  }

  /** Does a request under way use this temporary name? */
  predicate Held(st: State, tmp: Path)
  {
    exists w :: w in st.writers && st.writers[w].tmp == tmp
  }

  /** There are `n` more bytes in the file being read. */
  predicate CanPump(st: State, w: nat, n: nat)
  {
    && w in st.writers && !st.writers[w].closed && st.writers[w].source.Files? && st.writers[w].source.files != []
    && var source := st.writers[w].source;
       source.offset + n <= |DataOf(st.fs, source.files[|source.files| - 1])|
  }

  /** The next `n` bytes of the file being read. */
  function Piece(fs: FS, source: Source, n: nat): Bytes
    requires source.Files? && source.files != []
    requires source.offset + n <= |DataOf(fs, source.files[|source.files| - 1])|
  {
    DataOf(fs, source.files[|source.files| - 1])[source.offset..source.offset + n]
  }

  function Append(fs: FS, ino: Inode, bytes: Bytes): FS
  {
    Store(fs, ino, Raw(DataOf(fs, ino) + bytes))
  }

  /** The state with more bytes in a writer's file, and the writer further on in its source. */
  function Written(st: State, w: nat, source: Source, bytes: Bytes): State
    requires w in st.writers
  {
    st.(fs := Append(st.fs, st.writers[w].ino, bytes),
        writers := st.writers[w := st.writers[w].(source := source)])
  }

  /** What the system calls themselves demand. */
  predicate Possible(st: State, step: Step)
  {
    match step
    case Begin(w, target, tmp, source) =>
      && w !in st.writers && IsTemporary(tmp) && tmp !in st.fs.names && Unread(st, source)
      && (target.Rename? ==> IsData(target.path))
    case Send(w) =>
      && w in st.writers && !st.writers[w].closed && st.writers[w].source.Client?
      && st.writers[w].source.sent < |st.writers[w].source.body.chunks|
    case OpenNext(w) =>
      && w in st.writers && !st.writers[w].closed && st.writers[w].source.Files? && st.writers[w].source.todo != []
      && st.writers[w].source.todo[0] in st.fs.names
      && Exhausted(st.fs, st.writers[w].source.(todo := []))
    case Pump(w, n) => CanPump(st, w, n)
    case Finish(w) =>
      && w in st.writers && !st.writers[w].closed && Exhausted(st.fs, st.writers[w].source)
      && (st.writers[w].target.Rename? ==> st.writers[w].tmp in st.fs.names)
    case Drop(w) => w in st.writers
    case Remove(_) => true
    case OpenDocument(p) => IsDocument(p)
    case WriteDocument(ino, _) => ino in st.documents
    case OpenObject(r, p) => r !in st.readers && IsData(p) && p in st.fs.names
    case Read(r, n) => r in st.readers && |st.readers[r].got| + n <= |DataOf(st.fs, st.readers[r].ino)|
  }

  /** Possible, and a new temporary name is not that of another request under way. */
  predicate Enabled(st: State, step: Step)
  {
    Possible(st, step) && (step.Begin? ==> !Held(st, step.tmp))
  }

  function Do(st: State, step: Step): State
    requires Possible(st, step)
  {
    match step
    case Begin(w, target, tmp, source) =>
      st.(fs := Create(st.fs, tmp), writers := st.writers[w := Writer(target, tmp, st.fs.next, source, false)],
          owner := st.owner[st.fs.next := w], holder := st.holder[tmp := w])
    case Send(w) =>
      var source := st.writers[w].source;
      Written(st, w, source.(sent := source.sent + 1), source.body.chunks[source.sent])
    case OpenNext(w) =>
      var x := st.writers[w];
      var next := st.fs.names[x.source.todo[0]];
      st.(writers := st.writers[w := x.(source := Files(x.source.todo[1..], x.source.files + [next], 0))])
    case Pump(w, n) =>
      var source := st.writers[w].source;
      Written(st, w, source.(offset := source.offset + n), Piece(st.fs, source, n))
    case Finish(w) =>
      var x := st.writers[w];
      var sealed := st.sealed[x.ino := Seal(DataOf(st.fs, x.ino), x.source, x.target)];
      if x.target.Rename?
      then st.(fs := Link(st.fs, x.tmp, x.target.path), writers := st.writers - {w}, sealed := sealed)
      else st.(writers := st.writers[w := x.(closed := true)], sealed := sealed)
    case Drop(w) => st.(writers := st.writers - {w})
    case Remove(p) => st.(fs := Unlink(st.fs, p))
    case OpenDocument(p) =>
      var fs := Truncate(st.fs, p);
      st.(fs := fs, documents := st.documents + {fs.names[p]})
    case WriteDocument(ino, doc) => st.(fs := Store(st.fs, ino, Json(doc)))
    case OpenObject(r, p) => st.(readers := st.readers[r := Reader(st.fs.names[p], [])])
    case Read(r, n) =>
      var x := st.readers[r];
      st.(readers := st.readers[r := x.(got := x.got + DataOf(st.fs, x.ino)[|x.got|..|x.got| + n])])
  }

  const INITIAL := State(FS(map[], map[], map[], 0, {[]}), map[], map[], {}, map[], map[], map[])

  ghost predicate CanRun(st: State, steps: seq<Step>)
    decreases |steps|
  {
    steps == [] || (Enabled(st, steps[0]) && CanRun(Do(st, steps[0]), steps[1..]))
  }

  ghost function Run(st: State, steps: seq<Step>): State
    requires CanRun(st, steps)
    decreases |steps|
  {
    if steps == [] then st else Run(Do(st, steps[0]), steps[1..])
  }

  // ----- what every step keeps -----

  function Joined(sealed: map<Inode, Seal>, inos: seq<Inode>): Bytes
    requires forall i :: 0 <= i < |inos| ==> inos[i] in sealed
  {
    if inos == [] then [] else Joined(sealed, inos[..|inos| - 1]) + sealed[inos[|inos| - 1]].bytes
  }

  predicate SourceOk(sealed: map<Inode, Seal>, source: Source)
  {
    match source
    case Client(body, sent) => sent <= |body.chunks|
    case Files(todo, files, offset) =>
      && (forall i :: 0 <= i < |files| ==> files[i] in sealed)
      && (forall i :: 0 <= i < |todo| ==> IsData(todo[i]))
      && (files == [] ==> todo != [] && offset == 0)
      && (files != [] ==> offset <= |sealed[files[|files| - 1]].bytes|)
  }

  /** What a source has delivered so far. */
  function Delivered(sealed: map<Inode, Seal>, source: Source): Bytes
    requires SourceOk(sealed, source)
  {
    match source
    case Client(body, sent) => Concat(body.chunks[..sent])
    case Files(todo, files, offset) =>
      if files == [] then []
      else Joined(sealed, files[..|files| - 1]) + sealed[files[|files| - 1]].bytes[..offset]
  }

  /** A finished file holds the whole body of one request, or finished files whole and in full, one after another. */
  predicate Whole(sealed: map<Inode, Seal>, seal: Seal)
  {
    match seal.source
    case Client(body, sent) => !body.fails && seal.bytes == Concat(body.chunks)
    case Files(todo, files, offset) =>
      && todo == [] && files != [] && (forall i :: 0 <= i < |files| ==> files[i] in sealed)
      && seal.bytes == Joined(sealed, files)
  }

  predicate NameOk(fs: FS, documents: set<Inode>, sealed: map<Inode, Seal>, p: Path)
    requires p in fs.names
  {
    && fs.names[p] < fs.next
    && (IsDocument(p) ==> fs.names[p] in documents)
    && (IsData(p) ==> fs.names[p] in sealed && sealed[fs.names[p]].target == Rename(p))
  }

  predicate SealOk(fs: FS, documents: set<Inode>, sealed: map<Inode, Seal>, i: Inode)
    requires i in sealed
  {
    i < fs.next && i !in documents && i in fs.inodes && fs.inodes[i] == Raw(sealed[i].bytes) && Whole(sealed, sealed[i])
  }

  /** A writer's file belongs to it alone, stands under its temporary name or no name, and holds what its source has
      delivered. */
  predicate WriterOk(st: State, w: nat)
    requires w in st.writers
  {
    var x := st.writers[w];
    && x.ino < st.fs.next && x.ino !in st.documents && x.ino in st.fs.inodes
    && x.ino in st.owner && st.owner[x.ino] == w && x.tmp in st.holder && st.holder[x.tmp] == w
    && IsTemporary(x.tmp) && (x.target.Rename? ==> IsData(x.target.path))
    && (x.tmp in st.fs.names ==> st.fs.names[x.tmp] == x.ino)
    && (x.closed <==> x.ino in st.sealed)
    && SourceOk(st.sealed, x.source) && st.fs.inodes[x.ino] == Raw(Delivered(st.sealed, x.source))
  }

  predicate ReaderOk(sealed: map<Inode, Seal>, reader: Reader)
  {
    reader.ino in sealed && reader.got <= sealed[reader.ino].bytes
  }

  ghost predicate NamesOk(fs: FS, documents: set<Inode>, sealed: map<Inode, Seal>)
  {
    forall p :: p in fs.names ==> NameOk(fs, documents, sealed, p)
  }

  ghost predicate SealsOk(fs: FS, documents: set<Inode>, sealed: map<Inode, Seal>)
  {
    forall i :: i in sealed ==> SealOk(fs, documents, sealed, i)
  }

  ghost predicate WritersOk(st: State)
  {
    forall w :: w in st.writers ==> WriterOk(st, w)
  }

  ghost predicate ReadersOk(readers: map<nat, Reader>, sealed: map<Inode, Seal>)
  {
    forall r :: r in readers ==> ReaderOk(sealed, readers[r])
  }

  ghost predicate DocumentsOk(fs: FS, documents: set<Inode>)
  {
    forall d :: d in documents ==> d < fs.next
  }

  ghost predicate Inv(st: State)
  {
    && NamesOk(st.fs, st.documents, st.sealed) && SealsOk(st.fs, st.documents, st.sealed) && WritersOk(st)
    && ReadersOk(st.readers, st.sealed) && DocumentsOk(st.fs, st.documents)
  }

  // ----- finished files stay as they are -----

  ghost predicate Extends(sealed: map<Inode, Seal>, sealed': map<Inode, Seal>)
  {
    forall i :: i in sealed ==> i in sealed' && sealed'[i] == sealed[i]
  }

  lemma {:induction false} JoinedGrows(sealed: map<Inode, Seal>, sealed': map<Inode, Seal>, inos: seq<Inode>)
    requires Extends(sealed, sealed') && forall i :: 0 <= i < |inos| ==> inos[i] in sealed
    ensures Joined(sealed', inos) == Joined(sealed, inos)
  {
    if inos != [] {
      JoinedGrows(sealed, sealed', inos[..|inos| - 1]);
    }
  }

  lemma DeliveredGrows(sealed: map<Inode, Seal>, sealed': map<Inode, Seal>, source: Source)
    requires Extends(sealed, sealed') && SourceOk(sealed, source)
    ensures SourceOk(sealed', source) && Delivered(sealed', source) == Delivered(sealed, source)
  {
    if source.Files? && source.files != [] {
      JoinedGrows(sealed, sealed', source.files[..|source.files| - 1]);
    }
  }

  lemma WholeGrows(sealed: map<Inode, Seal>, sealed': map<Inode, Seal>, seal: Seal)
    requires Extends(sealed, sealed') && Whole(sealed, seal)
    ensures Whole(sealed', seal)
  {
    if seal.source.Files? {
      JoinedGrows(sealed, sealed', seal.source.files);
    }
  }

  /** Two writers never write the same file. */
  lemma OwnFiles(st: State, w: nat, v: nat)
    requires Inv(st) && w in st.writers && v in st.writers && w != v
    ensures st.writers[w].ino != st.writers[v].ino && st.writers[w].tmp != st.writers[v].tmp
  {
    assert WriterOk(st, w) && WriterOk(st, v);
  }

  /** What a writer needs of the rest of the state stays when the state changes elsewhere. */
  lemma WriterUnmoved(st: State, st': State, v: nat)
    requires Inv(st) && v in st.writers && v in st'.writers && st'.writers[v] == st.writers[v]
    requires Extends(st.sealed, st'.sealed) && st'.fs.next >= st.fs.next
    requires var x := st.writers[v];
             && x.ino in st'.fs.inodes && st'.fs.inodes[x.ino] == st.fs.inodes[x.ino] && x.ino !in st'.documents
             && x.ino in st'.owner && st'.owner[x.ino] == v && x.tmp in st'.holder && st'.holder[x.tmp] == v
             && (x.tmp in st'.fs.names ==> st'.fs.names[x.tmp] == x.ino)
             && (x.ino in st'.sealed <==> x.ino in st.sealed)
    ensures WriterOk(st', v)
  {
    assert WriterOk(st, v);
    DeliveredGrows(st.sealed, st'.sealed, st.writers[v].source);
  }

  lemma SealUnmoved(st: State, st': State, i: Inode)
    requires Inv(st) && i in st.sealed && Extends(st.sealed, st'.sealed) && st'.fs.next >= st.fs.next
    requires i !in st'.documents && i in st'.fs.inodes && st'.fs.inodes[i] == st.fs.inodes[i]
    ensures SealOk(st'.fs, st'.documents, st'.sealed, i)
  {
    assert SealOk(st.fs, st.documents, st.sealed, i);
    WholeGrows(st.sealed, st'.sealed, st.sealed[i]);
  }

  // ----- step by step -----

  lemma BeginKeeps(st: State, w: nat, target: Target, tmp: Path, source: Source)
    requires Inv(st) && Enabled(st, Begin(w, target, tmp, source))
    ensures Inv(Do(st, Begin(w, target, tmp, source)))
  {
    var st' := Do(st, Begin(w, target, tmp, source));
    UnreadIsOk(st, source);
    forall v | v in st'.writers
      ensures WriterOk(st', v)
    {
      if v != w {
        assert WriterOk(st, v);
        assert st.writers[v].tmp != tmp;
        WriterUnmoved(st, st', v);
      }
    }
    forall i | i in st'.sealed
      ensures SealOk(st'.fs, st'.documents, st'.sealed, i)
    {
      assert SealOk(st.fs, st.documents, st.sealed, i);
      SealUnmoved(st, st', i);
    }
    forall p | p in st'.fs.names
      ensures NameOk(st'.fs, st'.documents, st'.sealed, p)
    {
      assert p != tmp ==> NameOk(st.fs, st.documents, st.sealed, p);
    }
  }

  lemma UnreadIsOk(st: State, source: Source)
    requires Inv(st) && Unread(st, source)
    ensures SourceOk(st.sealed, source) && Delivered(st.sealed, source) == []
  {
    if source.Files? && source.files != [] {
      if IsRead(st, source.files[0]) {
        ReadIsSealed(st, source.files[0]);
      } else {
        CombinedIsSealed(st, source.files[0]);
      }
      assert source.files[..0] == [];
    }
  }

  lemma ReadIsSealed(st: State, ino: Inode)
    requires Inv(st) && IsRead(st, ino)
    ensures ino in st.sealed
  {
    var r :| r in st.readers && st.readers[r].ino == ino;
    assert ReaderOk(st.sealed, st.readers[r]);
  }

  lemma CombinedIsSealed(st: State, ino: Inode)
    requires Inv(st) && IsCombined(st, ino)
    ensures ino in st.sealed
  {
    var c :| c in st.writers && st.writers[c].closed && st.writers[c].tmp in st.fs.names
             && st.fs.names[st.writers[c].tmp] == ino;
    assert WriterOk(st, c);
  }

  /** More bytes in a file being written. */
  lemma AppendKeeps(st: State, w: nat, source: Source, bytes: Bytes)
    requires Inv(st) && w in st.writers && !st.writers[w].closed
    requires SourceOk(st.sealed, source)
    requires Delivered(st.sealed, source) == Delivered(st.sealed, st.writers[w].source) + bytes
    ensures Inv(Written(st, w, source, bytes))
  {
    var st' := Written(st, w, source, bytes);
    assert WriterOk(st, w);
    forall v | v in st'.writers
      ensures WriterOk(st', v)
    {
      if v != w {
        assert WriterOk(st, v);
        OwnFiles(st, w, v);
        WriterUnmoved(st, st', v);
      }
    }
    forall i | i in st'.sealed
      ensures SealOk(st'.fs, st'.documents, st'.sealed, i)
    {
      assert SealOk(st.fs, st.documents, st.sealed, i);
      SealUnmoved(st, st', i);
    }
    assert forall p :: p in st'.fs.names ==> NameOk(st.fs, st.documents, st.sealed, p);
  }

  lemma SendKeeps(st: State, w: nat)
    requires Inv(st) && Possible(st, Send(w))
    ensures Inv(Do(st, Send(w)))
  {
    assert WriterOk(st, w);
    var source := st.writers[w].source;
    ConcatStep(source.body.chunks, source.sent);
    AppendKeeps(st, w, source.(sent := source.sent + 1), source.body.chunks[source.sent]);
  }

  lemma PumpDelivers(sealed: map<Inode, Seal>, source: Source, n: nat)
    requires SourceOk(sealed, source) && source.Files? && source.files != []
    requires source.offset + n <= |sealed[source.files[|source.files| - 1]].bytes|
    ensures var after := source.(offset := source.offset + n);
            var all := sealed[source.files[|source.files| - 1]].bytes;
            && SourceOk(sealed, after)
            && Delivered(sealed, after) == Delivered(sealed, source) + all[source.offset..source.offset + n]
  {
    SliceOn(sealed[source.files[|source.files| - 1]].bytes, source.offset, n);
  }

  lemma SliceOn(all: Bytes, from: nat, n: nat)
    requires from + n <= |all|
    ensures all[..from + n] == all[..from] + all[from..from + n]
  {
  }

  lemma PumpKeeps(st: State, w: nat, n: nat)
    requires Inv(st) && Possible(st, Pump(w, n))
    ensures Inv(Do(st, Pump(w, n)))
  {
    var source := st.writers[w].source;
    PumpFits(st, w, n);
    AppendKeeps(st, w, source.(offset := source.offset + n), Piece(st.fs, source, n));
    PumpDoes(st, w, n);
  }

  lemma PumpFits(st: State, w: nat, n: nat)
    requires Inv(st) && CanPump(st, w, n)
    ensures var source := st.writers[w].source;
            var after := source.(offset := source.offset + n);
            && SourceOk(st.sealed, after)
            && Delivered(st.sealed, after) == Delivered(st.sealed, source) + Piece(st.fs, source, n)
  {
    PumpReads(st, w);
    PumpSource(st.sealed, st.fs, st.writers[w].source, n);
  }

  lemma PumpDoes(st: State, w: nat, n: nat)
    requires Possible(st, Pump(w, n))
    ensures var source := st.writers[w].source;
            Do(st, Pump(w, n)) == Written(st, w, source.(offset := source.offset + n), Piece(st.fs, source, n))
  {
  }

  lemma PumpSource(sealed: map<Inode, Seal>, fs: FS, source: Source, n: nat)
    requires source.Files? && source.files != [] && SourceOk(sealed, source)
    requires var from := source.files[|source.files| - 1];
             from in sealed && DataOf(fs, from) == sealed[from].bytes && source.offset + n <= |sealed[from].bytes|
    ensures SourceOk(sealed, source.(offset := source.offset + n))
    ensures Delivered(sealed, source.(offset := source.offset + n)) == Delivered(sealed, source) + Piece(fs, source, n)
  {
    PumpDelivers(sealed, source, n);
  }

  lemma PumpReads(st: State, w: nat)
    requires Inv(st) && w in st.writers && st.writers[w].source.Files? && st.writers[w].source.files != []
    ensures var source := st.writers[w].source;
            var from := source.files[|source.files| - 1];
            SourceOk(st.sealed, source) && from in st.sealed && DataOf(st.fs, from) == st.sealed[from].bytes
  {
    assert WriterOk(st, w);
    var source := st.writers[w].source;
    assert SealOk(st.fs, st.documents, st.sealed, source.files[|source.files| - 1]);
  }

  lemma OpenNextKeeps(st: State, w: nat)
    requires Inv(st) && Possible(st, OpenNext(w))
    ensures Inv(Do(st, OpenNext(w)))
  {
    var x, st' := st.writers[w], Do(st, OpenNext(w));
    assert WriterOk(st, w);
    var p := x.source.todo[0];
    assert NameOk(st.fs, st.documents, st.sealed, p);
    NextFile(st, x.source, st.fs.names[p]);
    AppendNothing(st.fs, x.ino);
    AppendKeeps(st, w, st'.writers[w].source, []);
  }

  lemma AppendNothing(fs: FS, ino: Inode)
    requires ino in fs.inodes && fs.inodes[ino].Raw?
    ensures Append(fs, ino, []) == fs
  {
    assert DataOf(fs, ino) + [] == DataOf(fs, ino);
  }

  /** Going on to the next file, the one before having been read in full. */
  lemma NextFile(st: State, source: Source, next: Inode)
    requires Inv(st) && SourceOk(st.sealed, source) && source.Files? && source.todo != [] && next in st.sealed
    requires Exhausted(st.fs, source.(todo := []))
    ensures var after := Files(source.todo[1..], source.files + [next], 0);
            SourceOk(st.sealed, after) && Delivered(st.sealed, after) == Delivered(st.sealed, source)
  {
    var after := source.files + [next];
    assert after[..|after| - 1] == source.files;
    if source.files != [] {
      LastIsRead(st, source);
    }
  }

  lemma LastIsRead(st: State, source: Source)
    requires Inv(st) && SourceOk(st.sealed, source) && source.Files? && source.files != []
    requires source.offset == |DataOf(st.fs, source.files[|source.files| - 1])|
    ensures Delivered(st.sealed, source) == Joined(st.sealed, source.files)
  {
    var last := source.files[|source.files| - 1];
    assert SealOk(st.fs, st.documents, st.sealed, last);
    assert st.sealed[last].bytes[..source.offset] == st.sealed[last].bytes;
  }

  /** What an exhausted source has delivered is whole. */
  lemma ExhaustedIsWhole(st: State, source: Source, target: Target)
    requires Inv(st) && SourceOk(st.sealed, source) && Exhausted(st.fs, source)
    ensures Whole(st.sealed, Seal(Delivered(st.sealed, source), source, target))
  {
    match source
    case Client(body, sent) => assert body.chunks[..sent] == body.chunks;
    case Files(_, files, _) =>
      if files != [] {
        LastIsRead(st, source);
      }
  }

  lemma FinishKeeps(st: State, w: nat)
    requires Inv(st) && Possible(st, Finish(w))
    ensures Inv(Do(st, Finish(w))) && Extends(st.sealed, Do(st, Finish(w)).sealed)
  {
    assert WriterOk(st, w);
    FinishWriters(st, w);
    FinishSeals(st, w);
    FinishNames(st, w);
    var st' := Do(st, Finish(w));
    forall r | r in st'.readers
      ensures ReaderOk(st'.sealed, st'.readers[r])
    {
      assert ReaderOk(st.sealed, st.readers[r]);
    }
  }

  lemma FinishWriters(st: State, w: nat)
    requires Inv(st) && Possible(st, Finish(w))
    ensures WritersOk(Do(st, Finish(w)))
  {
    var x, st' := st.writers[w], Do(st, Finish(w));
    assert WriterOk(st, w);
    DeliveredGrows(st.sealed, st'.sealed, x.source);
    forall v | v in st'.writers
      ensures WriterOk(st', v)
    {
      if v != w {
        assert WriterOk(st, v);
        OwnFiles(st, w, v);
        WriterUnmoved(st, st', v);
      }
    }
  }

  lemma FinishSeals(st: State, w: nat)
    requires Inv(st) && Possible(st, Finish(w))
    ensures SealsOk(Do(st, Finish(w)).fs, st.documents, Do(st, Finish(w)).sealed)
  {
    var x, st' := st.writers[w], Do(st, Finish(w));
    assert WriterOk(st, w);
    ExhaustedIsWhole(st, x.source, x.target);
    WholeGrows(st.sealed, st'.sealed, st'.sealed[x.ino]);
    forall i | i in st'.sealed
      ensures SealOk(st'.fs, st.documents, st'.sealed, i)
    {
      if i != x.ino {
        assert SealOk(st.fs, st.documents, st.sealed, i);
        WholeGrows(st.sealed, st'.sealed, st.sealed[i]);
      }
    }
  }

  lemma FinishNames(st: State, w: nat)
    requires Inv(st) && Possible(st, Finish(w))
    ensures NamesOk(Do(st, Finish(w)).fs, st.documents, Do(st, Finish(w)).sealed)
  {
    var st' := Do(st, Finish(w));
    assert WriterOk(st, w);
    forall p | p in st'.fs.names
      ensures NameOk(st'.fs, st.documents, st'.sealed, p)
    {
      assert p in st.fs.names ==> NameOk(st.fs, st.documents, st.sealed, p);
    }
  }

  lemma RemoveKeeps(st: State, p: Path)
    requires Inv(st)
    ensures Inv(Do(st, Remove(p)))
  {
    var st' := Do(st, Remove(p));
    forall q | q in st'.fs.names
      ensures NameOk(st'.fs, st'.documents, st'.sealed, q)
    {
      assert NameOk(st.fs, st.documents, st.sealed, q);
    }
    forall i | i in st'.sealed
      ensures SealOk(st'.fs, st'.documents, st'.sealed, i)
    {
      assert SealOk(st.fs, st.documents, st.sealed, i);
    }
    WritersUnmoved(st, st');
  }

  lemma DropKeeps(st: State, w: nat)
    requires Inv(st) && w in st.writers
    ensures Inv(Do(st, Drop(w)))
  {
    WritersUnmoved(st, Do(st, Drop(w)));
  }

  /** Writers go on when names go away, or other writers. */
  lemma WritersUnmoved(st: State, st': State)
    requires WritersOk(st)
    requires st'.fs.inodes == st.fs.inodes && st'.fs.next == st.fs.next && st'.documents == st.documents
             && st'.sealed == st.sealed
    requires st'.owner == st.owner && st'.holder == st.holder
    requires forall p :: p in st'.fs.names ==> p in st.fs.names && st'.fs.names[p] == st.fs.names[p]
    requires forall v :: v in st'.writers ==> v in st.writers && st'.writers[v] == st.writers[v]
    ensures WritersOk(st')
  {
    forall v | v in st'.writers
      ensures WriterOk(st', v)
    {
      assert WriterOk(st, v);
    }
  }

  /** Documents are rewritten in place, but no document is a data file. */
  lemma DocumentKeeps(st: State, st': State, d: Inode)
    requires Inv(st) && st'.writers == st.writers && st'.readers == st.readers && st'.sealed == st.sealed
    requires st'.owner == st.owner && st'.holder == st.holder && st'.documents == st.documents + {d}
    requires d < st'.fs.next && st'.fs.next >= st.fs.next && (d in st.documents || d >= st.fs.next)
    requires forall i :: i in st.fs.inodes && i != d ==> i in st'.fs.inodes && st'.fs.inodes[i] == st.fs.inodes[i]
    requires forall p :: p in st'.fs.names ==>
               if IsDocument(p) then st'.fs.names[p] in st'.documents
               else p in st.fs.names && st'.fs.names[p] == st.fs.names[p]
    ensures Inv(st')
  {
    forall p | p in st'.fs.names
      ensures NameOk(st'.fs, st'.documents, st'.sealed, p)
    {
      if !IsDocument(p) {
        assert NameOk(st.fs, st.documents, st.sealed, p);
      }
    }
    forall v | v in st'.writers
      ensures WriterOk(st', v)
    {
      assert WriterOk(st, v);
      WriterUnmoved(st, st', v);
    }
    forall i | i in st'.sealed
      ensures SealOk(st'.fs, st'.documents, st'.sealed, i)
    {
      assert SealOk(st.fs, st.documents, st.sealed, i);
      SealUnmoved(st, st', i);
    }
  }

  lemma OpenDocumentKeeps(st: State, p: Path)
    requires Inv(st) && IsDocument(p)
    ensures Inv(Do(st, OpenDocument(p)))
  {
    var st' := Do(st, OpenDocument(p));
    if p in st.fs.names {
      assert NameOk(st.fs, st.documents, st.sealed, p);
    }
    forall q | q in st'.fs.names && IsDocument(q)
      ensures st'.fs.names[q] in st'.documents
    {
      assert q in st.fs.names ==> NameOk(st.fs, st.documents, st.sealed, q);
    }
    DocumentKeeps(st, st', st'.fs.names[p]);
  }

  lemma WriteDocumentKeeps(st: State, ino: Inode, doc: Document)
    requires Inv(st) && ino in st.documents
    ensures Inv(Do(st, WriteDocument(ino, doc)))
  {
    assert forall q :: q in st.fs.names ==> NameOk(st.fs, st.documents, st.sealed, q);
    assert st.documents == st.documents + {ino};
    DocumentKeeps(st, Do(st, WriteDocument(ino, doc)), ino);
  }

  lemma OpenObjectKeeps(st: State, r: nat, p: Path)
    requires Inv(st) && Possible(st, OpenObject(r, p))
    ensures Inv(Do(st, OpenObject(r, p)))
  {
    assert NameOk(st.fs, st.documents, st.sealed, p);
    WritersUnmoved(st, Do(st, OpenObject(r, p)));
  }

  lemma ReadKeeps(st: State, r: nat, n: nat)
    requires Inv(st) && Possible(st, Read(r, n))
    ensures Inv(Do(st, Read(r, n)))
  {
    var x := st.readers[r];
    assert ReaderOk(st.sealed, x);
    assert SealOk(st.fs, st.documents, st.sealed, x.ino);
    WritersUnmoved(st, Do(st, Read(r, n)));
  }

  /** Only finishing a file adds to the finished files. */
  lemma SealedGrows(st: State, step: Step)
    requires Inv(st) && Enabled(st, step)
    ensures Extends(st.sealed, Do(st, step).sealed)
  {
    if step.Finish? {
      FinishKeeps(st, step.w);
    }
  }

  /** Steps of writers. */
  lemma WriterStepKeeps(st: State, step: Step)
    requires Inv(st) && Enabled(st, step)
    requires step.Begin? || step.Send? || step.OpenNext? || step.Finish? || step.Drop?
    ensures Inv(Do(st, step))
  {
    match step
    case Begin(w, target, tmp, source) => BeginKeeps(st, w, target, tmp, source);
    case Send(w) => SendKeeps(st, w);
    case OpenNext(w) => OpenNextKeeps(st, w);
    case Finish(w) => FinishKeeps(st, w);
    case Drop(w) => DropKeeps(st, w);
  }

  /** Steps of readers, and on names and documents. */
  lemma OtherStepKeeps(st: State, step: Step)
    requires Inv(st) && Enabled(st, step)
    requires step.Remove? || step.OpenDocument? || step.WriteDocument? || step.OpenObject? || step.Read?
    ensures Inv(Do(st, step))
  {
    match step
    case Remove(p) => RemoveKeeps(st, p);
    case OpenDocument(p) => OpenDocumentKeeps(st, p);
    case WriteDocument(ino, doc) => WriteDocumentKeeps(st, ino, doc);
    case OpenObject(r, p) => OpenObjectKeeps(st, r, p);
    case Read(r, n) => ReadKeeps(st, r, n);
  }

  lemma StepKeeps(st: State, step: Step)
    requires Inv(st) && Enabled(st, step)
    ensures Inv(Do(st, step)) && Extends(st.sealed, Do(st, step).sealed)
  {
    SealedGrows(st, step);
    if step.Pump? {
      PumpKeeps(st, step.w, step.n);
    } else if step.Begin? || step.Send? || step.OpenNext? || step.Finish? || step.Drop? {
      WriterStepKeeps(st, step);
    } else {
      OtherStepKeeps(st, step);
    }
  }

  // ----- whole runs -----

  lemma InitialInv()
    ensures Inv(INITIAL)
  {
  }

  lemma {:induction false} RunKeeps(st: State, steps: seq<Step>)
    requires Inv(st) && CanRun(st, steps)
    ensures Inv(Run(st, steps)) && Extends(st.sealed, Run(st, steps).sealed)
    decreases |steps|
  {
    if steps != [] {
      StepKeeps(st, steps[0]);
      RunKeeps(Do(st, steps[0]), steps[1..]);
    }
  }

  /** In every state the system can reach, the file at an object's or a part's path is finished: it holds the whole body
      of one request for that very path, or whole finished files one after another. */
  lemma FilesInPlaceAreWhole(steps: seq<Step>, p: Path)
    requires CanRun(INITIAL, steps) && IsData(p) && p in Run(INITIAL, steps).fs.names
    ensures var st := Run(INITIAL, steps);
            var ino := st.fs.names[p];
            && ino in st.sealed && ino in st.fs.inodes && st.fs.inodes[ino] == Raw(st.sealed[ino].bytes)
            && st.sealed[ino].target == Rename(p) && Whole(st.sealed, st.sealed[ino])
  {
    InitialInv();
    RunKeeps(INITIAL, steps);
    var st := Run(INITIAL, steps);
    assert NameOk(st.fs, st.documents, st.sealed, p);
    assert SealOk(st.fs, st.documents, st.sealed, st.fs.names[p]);
  }

  /** Such a file is never written again, whatever happens to its name. */
  lemma NeverWrittenAgain(st: State, steps: seq<Step>, p: Path)
    requires Inv(st) && CanRun(st, steps) && IsData(p) && p in st.fs.names
    ensures var ino := st.fs.names[p];
            ino in st.fs.inodes && ino in Run(st, steps).fs.inodes && Run(st, steps).fs.inodes[ino] == st.fs.inodes[ino]
  {
    RunKeeps(st, steps);
    var ino, st' := st.fs.names[p], Run(st, steps);
    assert NameOk(st.fs, st.documents, st.sealed, p);
    assert SealOk(st.fs, st.documents, st.sealed, ino);
    assert SealOk(st'.fs, st'.documents, st'.sealed, ino);
  }

  lemma {:induction false} ReaderStays(st: State, steps: seq<Step>, r: nat)
    requires CanRun(st, steps) && r in st.readers
    ensures r in Run(st, steps).readers && Run(st, steps).readers[r].ino == st.readers[r].ino
    decreases |steps|
  {
    if steps != [] {
      ReaderStays(Do(st, steps[0]), steps[1..], r);
    }
  }

  /** A reader of an object gets a prefix of the body that was there when it opened the file, and by the end of the file
      that body exactly, however often the object is replaced or deleted meanwhile. */
  lemma ReaderGetsOneBody(st: State, r: nat, p: Path, steps: seq<Step>)
    requires Inv(st) && Possible(st, OpenObject(r, p)) && CanRun(Do(st, OpenObject(r, p)), steps)
    ensures var st' := Run(Do(st, OpenObject(r, p)), steps);
            var body := DataOf(st.fs, st.fs.names[p]);
            && r in st'.readers && st'.readers[r].got <= body
            && ((forall n: nat :: Possible(st', Read(r, n)) ==> n == 0) ==> st'.readers[r].got == body)
  {
    var st1 := Do(st, OpenObject(r, p));
    OpenObjectKeeps(st, r, p);
    NeverWrittenAgain(st1, steps, p);
    ReaderStays(st1, steps, r);
    RunKeeps(st1, steps);
    ReaderIsAhead(Run(st1, steps), r);
  }

  lemma ReaderIsAhead(st: State, r: nat)
    requires Inv(st) && r in st.readers
    ensures var body := DataOf(st.fs, st.readers[r].ino);
            && st.readers[r].got <= body
            && ((forall n: nat :: Possible(st, Read(r, n)) ==> n == 0) ==> st.readers[r].got == body)
  {
    var reader := st.readers[r];
    assert ReaderOk(st.sealed, reader);
    assert SealOk(st.fs, st.documents, st.sealed, reader.ino);
    if forall n: nat :: Possible(st, Read(r, n)) ==> n == 0 {
      var rest := |DataOf(st.fs, reader.ino)| - |reader.got|;
      assert Possible(st, Read(r, rest));
    }
  }

  // ----- why temporary names must not be shared -----

  ghost predicate MightRun(st: State, steps: seq<Step>)
    decreases |steps|
  {
    steps == [] || (Possible(st, steps[0]) && MightRun(Do(st, steps[0]), steps[1..]))
  }

  ghost function RunPossible(st: State, steps: seq<Step>): State
    requires MightRun(st, steps)
    decreases |steps|
  {
    if steps == [] then st else RunPossible(Do(st, steps[0]), steps[1..])
  }

  lemma OneMore(st: State, step: Step, rest: seq<Step>)
    requires Possible(st, step) && MightRun(Do(st, step), rest)
    ensures MightRun(st, [step] + rest) && RunPossible(st, [step] + rest) == RunPossible(Do(st, step), rest)
  {
    assert ([step] + rest)[1..] == rest;
  }

  lemma {:induction false} RunsOn(st: State, a: seq<Step>, b: seq<Step>)
    requires MightRun(st, a) && MightRun(RunPossible(st, a), b)
    ensures MightRun(st, a + b) && RunPossible(st, a + b) == RunPossible(RunPossible(st, a), b)
    decreases |a|
  {
    if a == [] {
      assert a + b == b;
    } else {
      var step, rest := a[0], a[1..];
      RunsOn(Do(st, step), rest, b);
      OneMore(st, step, rest + b);
      Regroup(a, b);
    }
  }

  lemma Regroup<T>(a: seq<T>, b: seq<T>)
    requires a != []
    ensures [a[0]] + (a[1..] + b) == a + b
  {
  }

  predicate IsUploading(st: State, w: nat)
  {
    && w in st.writers && !st.writers[w].closed && st.writers[w].source.Client?
    && st.writers[w].source.sent <= |st.writers[w].source.body.chunks|
  }

  /** Some of the next `n` chunks is not empty. */
  predicate BytesAmong(source: Source, n: nat)
    requires source.Client? && source.sent + n <= |source.body.chunks|
  {
    exists i :: source.sent <= i < source.sent + n && source.body.chunks[i] != []
  }

  function ChunksLeft(source: Source): nat
    requires source.Client? && source.sent <= |source.body.chunks|
  {
    |source.body.chunks| - source.sent
  }

  /** Two unfinished requests, `w` and `c`, share a temporary name, which is that of the file of `c`; the body of `w`
      will arrive, and `c` has bytes still to come. */
  predicate SharesName(st: State, w: nat, c: nat)
  {
    && w != c && IsUploading(st, w) && IsUploading(st, c)
    && st.writers[w].tmp == st.writers[c].tmp && st.writers[c].tmp in st.fs.names
    && st.fs.names[st.writers[c].tmp] == st.writers[c].ino
    && st.writers[w].target.Rename? && !st.writers[w].source.body.fails
    && BytesAmong(st.writers[c].source, ChunksLeft(st.writers[c].source))
  }

  function Sends(w: nat, n: nat): seq<Step>
  {
    if n == 0 then [] else [Send(w)] + Sends(w, n - 1)
  }

  /** Sending changes how far a request has come, and lengthens its file unless there was nothing to send. */
  lemma {:induction false} SendsGoOn(st: State, w: nat, n: nat)
    requires IsUploading(st, w) && n <= ChunksLeft(st.writers[w].source)
    ensures MightRun(st, Sends(w, n))
    ensures var st' := RunPossible(st, Sends(w, n));
            var x := st.writers[w];
            && st'.fs.names == st.fs.names
            && st'.writers == st.writers[w := x.(source := x.source.(sent := x.source.sent + n))]
            && |DataOf(st'.fs, x.ino)| >= |DataOf(st.fs, x.ino)|
            && (BytesAmong(x.source, n) ==> |DataOf(st'.fs, x.ino)| > |DataOf(st.fs, x.ino)|)
    decreases n
  {
    if n > 0 {
      SendLengthens(st, w);
      SendsGoOn(Do(st, Send(w)), w, n - 1);
      OneMore(st, Send(w), Sends(w, n - 1));
    }
  }

  lemma SendLengthens(st: State, w: nat)
    requires Possible(st, Send(w))
    ensures var x, st' := st.writers[w], Do(st, Send(w));
            && st'.fs.names == st.fs.names
            && st'.writers == st.writers[w := x.(source := x.source.(sent := x.source.sent + 1))]
            && |DataOf(st'.fs, x.ino)| == |DataOf(st.fs, x.ino)| + |x.source.body.chunks[x.source.sent]|
  {
  }

  /** Sending a whole body fills the file with it. */
  lemma {:induction false} SendsFill(st: State, w: nat, n: nat)
    requires IsUploading(st, w) && n <= ChunksLeft(st.writers[w].source)
    requires DataOf(st.fs, st.writers[w].ino) == Concat(st.writers[w].source.body.chunks[..st.writers[w].source.sent])
    ensures MightRun(st, Sends(w, n))
    ensures var x := st.writers[w];
            DataOf(RunPossible(st, Sends(w, n)).fs, x.ino) == Concat(x.source.body.chunks[..x.source.sent + n])
    decreases n
  {
    if n > 0 {
      SendLengthens(st, w);
      ConcatStep(st.writers[w].source.body.chunks, st.writers[w].source.sent);
      SendsFill(Do(st, Send(w)), w, n - 1);
      OneMore(st, Send(w), Sends(w, n - 1));
    }
  }

  /** An upload that nothing disturbs begins, sends its body and finishes, and then the file at its path is the body. */
  lemma UploadArrives(st: State, w: nat, q: Path, tmp: Path, body: Body) returns (steps: seq<Step>)
    requires Possible(st, Begin(w, Rename(q), tmp, Client(body, 0))) && !body.fails
    ensures MightRun(st, steps)
    ensures var st' := RunPossible(st, steps);
            q in st'.fs.names && DataOf(st'.fs, st'.fs.names[q]) == Concat(body.chunks)
  {
    var begin, sends := Begin(w, Rename(q), tmp, Client(body, 0)), Sends(w, |body.chunks|);
    var begun := Do(st, begin);
    assert body.chunks[..0] == [] && body.chunks[..|body.chunks|] == body.chunks;
    SendsFill(begun, w, |body.chunks|);
    SendsGoOn(begun, w, |body.chunks|);
    steps := FinishAfter(st, begin, sends, w);
  }

  /** So does a copy of an object that a reader has open. */
  lemma CopyArrives(st: State, w: nat, q: Path, tmp: Path, ino: Inode) returns (steps: seq<Step>)
    requires Possible(st, Begin(w, Rename(q), tmp, Files([], [ino], 0))) && ino < st.fs.next
    ensures MightRun(st, steps)
    ensures var st' := RunPossible(st, steps);
            q in st'.fs.names && DataOf(st'.fs, st'.fs.names[q]) == DataOf(st.fs, ino)
  {
    var begin, n := Begin(w, Rename(q), tmp, Files([], [ino], 0)), |DataOf(st.fs, ino)|;
    PumpIsAll(Do(st, begin), w, ino, n);
    OneMore(Do(st, begin), Pump(w, n), []);
    steps := FinishAfter(st, begin, [Pump(w, n)] + [], w);
  }

  lemma PumpIsAll(st: State, w: nat, ino: Inode, n: nat)
    requires w in st.writers && !st.writers[w].closed && st.writers[w].source == Files([], [ino], 0)
    requires st.writers[w].ino != ino && DataOf(st.fs, st.writers[w].ino) == [] && n == |DataOf(st.fs, ino)|
    ensures Possible(st, Pump(w, n))
    ensures var st' := Do(st, Pump(w, n));
            && Exhausted(st'.fs, st'.writers[w].source) && st'.fs.names == st.fs.names
            && DataOf(st'.fs, st.writers[w].ino) == DataOf(st.fs, ino)
  {
    assert DataOf(st.fs, ino)[0..n] == DataOf(st.fs, ino);
  }

  function Contents(fs: FS, paths: seq<Path>): Bytes
    requires forall i :: 0 <= i < |paths| ==> paths[i] in fs.names
  {
    if paths == [] then [] else DataOf(fs, fs.names[paths[0]]) + Contents(fs, paths[1..])
  }

  lemma {:induction false} SameContents(fs: FS, fs': FS, paths: seq<Path>)
    requires forall i :: 0 <= i < |paths| ==>
               && paths[i] in fs.names && paths[i] in fs'.names && fs'.names[paths[i]] == fs.names[paths[i]]
               && DataOf(fs', fs.names[paths[i]]) == DataOf(fs, fs.names[paths[i]])
    ensures Contents(fs', paths) == Contents(fs, paths)
  {
    if paths != [] {
      SameContents(fs, fs', paths[1..]);
    }
  }

  /** The request has read the files opened so far to the end, and has these to go. */
  predicate IsGathering(st: State, w: nat, paths: seq<Path>)
  {
    && w in st.writers && !st.writers[w].closed && st.writers[w].source.Files? && st.writers[w].source.todo == paths
    && Exhausted(st.fs, st.writers[w].source.(todo := []))
    && forall i :: 0 <= i < |paths| ==> paths[i] in st.fs.names && st.fs.names[paths[i]] != st.writers[w].ino
  }

  /** The request has appended these bytes, and has these files to go. */
  predicate HasGathered(st: State, st': State, w: nat, rest: seq<Path>, bytes: Bytes)
    requires w in st.writers
  {
    && IsGathering(st', w, rest) && st'.fs.names == st.fs.names && st'.writers[w].ino == st.writers[w].ino
    && st'.writers[w].tmp == st.writers[w].tmp && st'.writers[w].target == st.writers[w].target
    && DataOf(st'.fs, st.writers[w].ino) == DataOf(st.fs, st.writers[w].ino) + bytes
  }

  lemma GathersOn(st: State, st1: State, st2: State, w: nat, rest: seq<Path>, a: Bytes, b: Bytes)
    requires w in st.writers && HasGathered(st, st1, w, rest, a) && HasGathered(st1, st2, w, [], b)
    ensures HasGathered(st, st2, w, [], a + b)
  {
    var data := DataOf(st.fs, st.writers[w].ino);
    assert data + a + b == data + (a + b);
  }

  /** Opening and reading one file appends it. */
  lemma GathersOne(st: State, w: nat, paths: seq<Path>) returns (n: nat, st': State)
    requires IsGathering(st, w, paths) && paths != []
    ensures Possible(st, OpenNext(w)) && Possible(Do(st, OpenNext(w)), Pump(w, n))
    ensures st' == Do(Do(st, OpenNext(w)), Pump(w, n))
    ensures HasGathered(st, st', w, paths[1..], DataOf(st.fs, st.fs.names[paths[0]]))
    ensures forall i :: i != st.writers[w].ino ==> DataOf(st'.fs, i) == DataOf(st.fs, i)
  {
    var next := st.fs.names[paths[0]];
    n := |DataOf(st.fs, next)|;
    var ready := Do(st, OpenNext(w));
    var files := ready.writers[w].source.files;
    assert files[|files| - 1] == next;
    assert DataOf(st.fs, next)[0..n] == DataOf(st.fs, next);
    st' := Do(ready, Pump(w, n));
  }

  lemma {:induction false} Gathers(st: State, w: nat, paths: seq<Path>) returns (steps: seq<Step>)
    requires IsGathering(st, w, paths)
    ensures MightRun(st, steps)
    ensures HasGathered(st, RunPossible(st, steps), w, [], Contents(st.fs, paths))
    decreases |paths|
  {
    steps := [];
    if paths != [] {
      var n, pumped := GathersOne(st, w, paths);
      var rest := Gathers(pumped, w, paths[1..]);
      SameContents(st.fs, pumped.fs, paths[1..]);
      GathersOn(st, pumped, RunPossible(pumped, rest), w, paths[1..], DataOf(st.fs, st.fs.names[paths[0]]),
        Contents(st.fs, paths[1..]));
      steps := TwoMore(st, OpenNext(w), Pump(w, n), rest);
    }
  }

  lemma TwoMore(st: State, one: Step, two: Step, rest: seq<Step>) returns (steps: seq<Step>)
    requires Possible(st, one) && Possible(Do(st, one), two) && MightRun(Do(Do(st, one), two), rest)
    ensures MightRun(st, steps) && RunPossible(st, steps) == RunPossible(Do(Do(st, one), two), rest)
  {
    OneMore(Do(st, one), two, rest);
    OneMore(st, one, [two] + rest);
    steps := [one] + ([two] + rest);
  }

  lemma NamesAreOld(st: State)
    requires Inv(st)
    ensures forall p :: p in st.fs.names ==> st.fs.names[p] < st.fs.next
  {
    forall p | p in st.fs.names
      ensures st.fs.names[p] < st.fs.next
    {
      assert NameOk(st.fs, st.documents, st.sealed, p);
    }
  }

  lemma CreateKeepsContents(fs: FS, tmp: Path, paths: seq<Path>)
    requires tmp !in fs.names && forall p :: p in fs.names ==> fs.names[p] < fs.next
    requires forall i :: 0 <= i < |paths| ==> paths[i] in fs.names
    ensures forall i :: 0 <= i < |paths| ==>
              paths[i] in Create(fs, tmp).names && Create(fs, tmp).names[paths[i]] == fs.names[paths[i]] != fs.next
    ensures Contents(Create(fs, tmp), paths) == Contents(fs, paths)
  {
    var fs' := Create(fs, tmp);
    forall i | 0 <= i < |paths|
      ensures fs'.names[paths[i]] == fs.names[paths[i]] != fs.next
      ensures DataOf(fs', fs.names[paths[i]]) == DataOf(fs, fs.names[paths[i]])
    {
      CreateKeepsData(fs, tmp, paths[i]);
    }
    SameContents(fs, fs', paths);
  }

  lemma CreateKeepsData(fs: FS, tmp: Path, p: Path)
    requires tmp !in fs.names && p in fs.names && fs.names[p] < fs.next
    ensures Create(fs, tmp).names[p] == fs.names[p]
    ensures DataOf(Create(fs, tmp), fs.names[p]) == DataOf(fs, fs.names[p])
  {
  }

  lemma BegunIsGathering(st: State, w: nat, tmp: Path, paths: seq<Path>)
    requires forall p :: p in st.fs.names ==> st.fs.names[p] < st.fs.next
    requires Possible(st, Begin(w, Close, tmp, Files(paths, [], 0)))
    requires forall i :: 0 <= i < |paths| ==> paths[i] in st.fs.names
    ensures var begun := Do(st, Begin(w, Close, tmp, Files(paths, [], 0)));
            IsGathering(begun, w, paths) && Contents(begun.fs, paths) == Contents(st.fs, paths)
  {
    CreateKeepsContents(st.fs, tmp, paths);
  }

  lemma GatheredIsCombined(st: State, w: nat)
    requires IsGathering(st, w, []) && st.writers[w].target.Close?
    requires st.writers[w].tmp in st.fs.names && st.fs.names[st.writers[w].tmp] == st.writers[w].ino
    ensures Possible(st, Finish(w))
    ensures var st' := Do(st, Finish(w)); st'.fs == st.fs && IsCombined(st', st.writers[w].ino)
  {
    var st' := Do(st, Finish(w));
    assert w in st'.writers && st'.writers[w].closed && st'.writers[w].tmp == st.writers[w].tmp;
  }

  /** A combined file that nothing disturbs comes to hold the parts' files, in the order they are to be opened in. */
  lemma CombinationArrives(st: State, w: nat, tmp: Path, paths: seq<Path>) returns (steps: seq<Step>)
    requires Inv(st) && Possible(st, Begin(w, Close, tmp, Files(paths, [], 0)))
    requires forall i :: 0 <= i < |paths| ==> paths[i] in st.fs.names
    ensures MightRun(st, steps)
    ensures var st' := RunPossible(st, steps);
            tmp in st'.fs.names && IsCombined(st', st'.fs.names[tmp])
              && DataOf(st'.fs, st'.fs.names[tmp]) == Contents(st.fs, paths)
  {
    NamesAreOld(st);
    steps := Combination(st, w, tmp, paths);
  }

  lemma Combination(st: State, w: nat, tmp: Path, paths: seq<Path>) returns (steps: seq<Step>)
    requires forall p :: p in st.fs.names ==> st.fs.names[p] < st.fs.next
    requires Possible(st, Begin(w, Close, tmp, Files(paths, [], 0)))
    requires forall i :: 0 <= i < |paths| ==> paths[i] in st.fs.names
    ensures MightRun(st, steps)
    ensures var st' := RunPossible(st, steps);
            tmp in st'.fs.names && IsCombined(st', st'.fs.names[tmp])
              && DataOf(st'.fs, st'.fs.names[tmp]) == Contents(st.fs, paths)
  {
    var begin := Begin(w, Close, tmp, Files(paths, [], 0));
    var begun := Do(st, begin);
    BegunIsGathering(st, w, tmp, paths);
    var gather := Gathers(begun, w, paths);
    CombinationEnds(begun, RunPossible(begun, gather), w, Contents(st.fs, paths));
    steps := FinishAfter(st, begin, gather, w);
  }

  lemma CombinationEnds(begun: State, full: State, w: nat, data: Bytes)
    requires w in begun.writers && begun.writers[w].target.Close? && begun.writers[w].tmp in begun.fs.names
    requires begun.fs.names[begun.writers[w].tmp] == begun.writers[w].ino
    requires DataOf(begun.fs, begun.writers[w].ino) == [] && HasGathered(begun, full, w, [], data)
    ensures Possible(full, Finish(w))
    ensures var st', tmp := Do(full, Finish(w)), begun.writers[w].tmp;
            && tmp in st'.fs.names && IsCombined(st', st'.fs.names[tmp])
            && DataOf(st'.fs, st'.fs.names[tmp]) == data
  {
    assert [] + data == data;
    GatheredIsCombined(full, w);
  }

  lemma FinishAfter(st: State, begin: Step, middle: seq<Step>, w: nat) returns (steps: seq<Step>)
    requires Possible(st, begin) && MightRun(Do(st, begin), middle)
    requires Possible(RunPossible(Do(st, begin), middle), Finish(w))
    ensures MightRun(st, steps)
    ensures RunPossible(st, steps) == Do(RunPossible(Do(st, begin), middle), Finish(w))
  {
    OneMore(RunPossible(Do(st, begin), middle), Finish(w), []);
    steps := Around(st, begin, middle, [Finish(w)] + []);
  }

  lemma Around(st: State, begin: Step, middle: seq<Step>, last: seq<Step>) returns (steps: seq<Step>)
    requires Possible(st, begin) && MightRun(Do(st, begin), middle)
    requires MightRun(RunPossible(Do(st, begin), middle), last)
    ensures MightRun(st, steps)
    ensures RunPossible(st, steps) == RunPossible(RunPossible(Do(st, begin), middle), last)
  {
    RunsOn(Do(st, begin), middle, last);
    OneMore(st, begin, middle + last);
    steps := [begin] + (middle + last);
  }

  /** A document is empty once it is opened, and then what is written. */
  lemma DocumentArrives(st: State, p: Path, doc: Document)
    requires IsDocument(p)
    ensures var ready := Do(st, OpenDocument(p));
            p in ready.fs.names && DataOf(ready.fs, ready.fs.names[p]) == []
              && Possible(ready, WriteDocument(ready.fs.names[p], doc)) &&
            var st' := Do(ready, WriteDocument(ready.fs.names[p], doc));
            p in st'.fs.names && st'.fs.names[p] in st'.fs.inodes && st'.fs.inodes[st'.fs.names[p]] == Json(doc)
  {
  }

  /** A reader that opens a path and reads to the end has what was there. */
  lemma ReadArrives(st: State, r: nat, p: Path)
    requires Possible(st, OpenObject(r, p))
    ensures var data, ready := DataOf(st.fs, st.fs.names[p]), Do(st, OpenObject(r, p));
            Possible(ready, Read(r, |data|)) && Do(ready, Read(r, |data|)).readers[r].got == data
  {
    var data := DataOf(st.fs, st.fs.names[p]);
    assert data[0..|data|] == data;
  }

  /** An upload that fails, however far it has come, and removes its temporary file leaves all names as they were. */
  lemma FailureLeavesNothing(st: State, w: nat, target: Target, tmp: Path, body: Body, n: nat)
    returns (steps: seq<Step>)
    requires Possible(st, Begin(w, target, tmp, Client(body, 0))) && n <= |body.chunks|
    ensures MightRun(st, steps)
    ensures var st' := RunPossible(st, steps); st'.fs.names == st.fs.names && st'.writers == st.writers
  {
    var begin, sends := Begin(w, target, tmp, Client(body, 0)), Sends(w, n);
    var begun := Do(st, begin);
    SendsGoOn(begun, w, n);
    var failed := RunPossible(begun, sends);
    BackAsBefore(st, failed, w, tmp, begun.fs.names[tmp], failed.writers[w]);
    var last := TwoMore(failed, Drop(w), Remove(tmp), []);
    steps := Around(st, begin, sends, last);
  }

  lemma BackAsBefore(st: State, failed: State, w: nat, tmp: Path, ino: Inode, x: Writer)
    requires w !in st.writers && tmp !in st.fs.names
    requires failed.fs.names == st.fs.names[tmp := ino] && failed.writers == st.writers[w := x]
    ensures var st' := Do(Do(failed, Drop(w)), Remove(tmp));
            st'.fs.names == st.fs.names && st'.writers == st.writers
  {
  }

  /** If two requests under way share a temporary name, one can put the other's unfinished file in place, and the file
      in place is written again. */
  lemma SharedNameBreaks(st: State, w: nat, c: nat) returns (first: seq<Step>, second: seq<Step>)
    requires SharesName(st, w, c)
    ensures MightRun(st, first) && MightRun(RunPossible(st, first), second)
    ensures var st1 := RunPossible(st, first);
            var st2 := RunPossible(st1, second);
            var q := st.writers[w].target.path;
            && q in st1.fs.names && q in st2.fs.names && st1.fs.names[q] == st2.fs.names[q]
            && DataOf(st2.fs, st2.fs.names[q]) != DataOf(st1.fs, st1.fs.names[q])
  {
    var n, m := ChunksLeft(st.writers[w].source), ChunksLeft(st.writers[c].source);
    SendsGoOn(st, w, n);
    var full := RunPossible(st, Sends(w, n));
    OneMore(full, Finish(w), []);
    RunsOn(st, Sends(w, n), [Finish(w)] + []);
    first := Sends(w, n) + ([Finish(w)] + []);
    second := Sends(c, m);
    SendsGoOn(Do(full, Finish(w)), c, m);
  }

  /** That comes of every new request that takes a name held by another one, where both are uploads in progress. */
  lemma TakingHeldNameShares(st: State, w: nat, step: Step)
    requires Possible(st, step) && step.Begin? && step.source.Client?
    requires BytesAmong(step.source, |step.source.body.chunks|)
    requires IsUploading(st, w) && st.writers[w].tmp == step.tmp
    requires st.writers[w].target.Rename? && !st.writers[w].source.body.fails
    ensures !Enabled(st, step) && SharesName(Do(st, step), w, step.w)
  {
  }

  /** Request 1 takes a free temporary name; the name is removed; request 2 takes it once more. */
  lemma TakenTwice(st: State, tmp: Path, q: Path, r: Path) returns (steps: seq<Step>)
    requires 1 !in st.writers && 2 !in st.writers && IsTemporary(tmp) && tmp !in st.fs.names && IsData(q) && IsData(r)
    ensures MightRun(st, steps)
    ensures var st' := RunPossible(st, steps);
            SharesName(st', 1, 2)
  {
    var b1 := Begin(1, Rename(q), tmp, Client(Body([], false), 0));
    var b2 := Begin(2, Rename(r), tmp, Client(Body([[1]], false), 0));
    var s1 := Do(st, b1);
    var s2 := Do(s1, Remove(tmp));
    OneMore(s2, b2, []);
    OneMore(s1, Remove(tmp), [b2] + []);
    OneMore(st, b1, [Remove(tmp)] + ([b2] + []));
    steps := [b1] + ([Remove(tmp)] + ([b2] + []));
    assert b2.source.body.chunks[0] != [];
    TakingHeldNameShares(s2, 1, b2);
  }

  /** Creating temporary files exclusively does not rule this out: request 0 has put its file in place and freed its
      temporary name; request 1 takes the same name; request 0 then removes its temporary name after all, as it does
      when it returns; and request 2 takes the name once more. */
  lemma SharedNameIsReachable() returns (steps: seq<Step>)
    ensures MightRun(INITIAL, steps)
    ensures var st := RunPossible(INITIAL, steps);
            SharesName(st, 1, 2)
  {
    var dir := ["abc", ".objects"];
    var tmp := dir + [".tmp-1"];
    NoJson(dir, ".tmp-1");
    NoJson(dir, "00");
    NoJson(dir, "01");
    NoJson(dir, "02");
    var b0 := Begin(0, Rename(dir + ["00"]), tmp, Client(Body([], false), 0));
    var s1 := Do(INITIAL, b0);
    var s2 := Do(s1, Finish(0));
    var rest := TakenTwice(s2, tmp, dir + ["01"], dir + ["02"]);
    OneMore(s1, Finish(0), rest);
    OneMore(INITIAL, b0, [Finish(0)] + rest);
    steps := [b0] + ([Finish(0)] + rest);
  }
}
