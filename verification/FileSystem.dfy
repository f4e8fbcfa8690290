/** The file system: paths name inodes, inodes hold contents, and a rename moves a name.  `Disk` performs the calls the
    backend makes, one atomic step at a time, and remembers every tree those steps pass through. */
module FileSystem {
  import opened Types
  import opened Layout

  /** The JSON documents the backend writes, by what they encode. */
  datatype Document =
    | BucketDoc(name: string, createdAt: int, region: string)
    | MetaDoc(meta: ObjectMeta)
    | UploadDoc(state: UploadState)
    | PartDoc(part: MultipartPart)

  datatype Content = Raw(bytes: Bytes) | Json(doc: Document)

  type Tree = map<Path, Content>

  type Inode = nat

  /** `links` has the name each inode was last linked under: there are no hard links. */
  datatype FS = FS(
    names: map<Path, Inode>,
    inodes: map<Inode, Content>,
    links: map<Inode, Path>,
    next: Inode,
    dirs: set<Path>)

  ghost predicate Sound(fs: FS)
  {
    forall p :: p in fs.names ==> SoundName(fs, p)
  }

  predicate SoundName(fs: FS, p: Path)
    requires p in fs.names
  {
    var ino := fs.names[p];
    && ino in fs.inodes && ino < fs.next
    && ino in fs.links && fs.links[ino] == p
    && p != [] && Parent(p) in fs.dirs
  }

  /** What every name reads as. */
  function View(fs: FS): Tree
    requires Sound(fs)
  {
    map p | p in fs.names :: fs.inodes[fs.names[p]]
  }

  // ----- atomic steps -----

  function Create(fs: FS, p: Path): FS
  {
    FS(fs.names[p := fs.next], fs.inodes[fs.next := Raw([])], fs.links[fs.next := p], fs.next + 1, fs.dirs)
  }

  function Store(fs: FS, ino: Inode, c: Content): FS
  {
    fs.(inodes := fs.inodes[ino := c])
  }

  function Link(fs: FS, p: Path, q: Path): FS
    requires p in fs.names
  {
    fs.(names := (fs.names - {p})[q := fs.names[p]], links := fs.links[fs.names[p] := q])
  }

  function Unlink(fs: FS, p: Path): FS
  {
    fs.(names := fs.names - {p})
  }

  function Truncate(fs: FS, p: Path): FS
  {
    if p in fs.names then Store(fs, fs.names[p], Raw([])) else Create(fs, p)
  }

  function Ancestors(dir: Path): set<Path>
  {
    set i | 0 <= i <= |dir| :: dir[..i]
  }

  lemma CreateStep(fs: FS, p: Path)
    requires Sound(fs) && p !in fs.names && p != [] && Parent(p) in fs.dirs
    ensures Sound(Create(fs, p)) && View(Create(fs, p)) == View(fs)[p := Raw([])]
  {
  }

  lemma StoreStep(fs: FS, p: Path, c: Content)
    requires Sound(fs) && p in fs.names
    ensures Sound(Store(fs, fs.names[p], c)) && View(Store(fs, fs.names[p], c)) == View(fs)[p := c]
  {
  }

  lemma LinkStep(fs: FS, p: Path, q: Path)
    requires Sound(fs) && p in fs.names && p != q && q != [] && Parent(q) in fs.dirs
    ensures Sound(Link(fs, p, q)) && View(Link(fs, p, q)) == (View(fs) - {p})[q := View(fs)[p]]
  {
  }

  lemma UnlinkStep(fs: FS, p: Path)
    requires Sound(fs)
    ensures Sound(Unlink(fs, p)) && View(Unlink(fs, p)) == View(fs) - {p}
  {
  }

  lemma TruncateStep(fs: FS, p: Path)
    requires Sound(fs) && p != [] && Parent(p) in fs.dirs
    ensures Sound(Truncate(fs, p)) && View(Truncate(fs, p)) == View(fs)[p := Raw([])]
  {
    if p in fs.names {
      StoreStep(fs, p, Raw([]));
    } else {
      CreateStep(fs, p);
    }
  }

  lemma DropDirsStep(fs: FS, dir: Path)
    requires Sound(fs) && forall p :: p in fs.names ==> !Under(dir, p)
    ensures var fs' := fs.(dirs := set d | d in fs.dirs && !Under(dir, d)); Sound(fs') && View(fs') == View(fs)
  {
    forall p | p in fs.names
      ensures !Under(dir, Parent(p))
    {
      UnderParent(dir, p);
    }
  }

  lemma UnderParent(dir: Path, p: Path)
    requires p != []
    ensures Under(dir, Parent(p)) ==> Under(dir, p)
  {
    assert |dir| < |p| ==> p[..|dir|] == Parent(p)[..|dir|];
  }

  /** Truncating and then writing, as one change of the tree. */
  lemma WriteFileStep(fs: FS, p: Path, c: Content)
    requires Sound(fs) && p != [] && Parent(p) in fs.dirs
    ensures Sound(Truncate(fs, p)) && View(Truncate(fs, p)) == View(fs)[p := Raw([])]
    ensures p in Truncate(fs, p).names
    ensures var fs' := Store(Truncate(fs, p), Truncate(fs, p).names[p], c);
            Sound(fs') && View(fs') == View(fs)[p := c] && fs'.dirs == fs.dirs
  {
    TruncateStep(fs, p);
    var t := Truncate(fs, p);
    assert p in View(t);
    StoreStep(t, p, c);
    UpdateTwice(View(fs), p, Raw([]), c);
  }

  lemma UpdateTwice(t: Tree, p: Path, a: Content, b: Content)
    ensures t[p := a][p := b] == t[p := b]
  {
  }

  /** The tree without everything at or below `dir`. */
  function Without(t: Tree, dir: Path): Tree
  {
    map p | p in t && !Under(dir, p) :: t[p]
  }

  /** A stage of removing `dir`: some files below it are gone, nothing else has changed. */
  ghost predicate RemovalStage(before: Tree, dir: Path, t: Tree)
  {
    && (forall p :: p in t ==> p in before && t[p] == before[p])
    && (forall p :: p in before && !Under(dir, p) ==> p in t)
  }

  lemma RemovalStep(before: Tree, dir: Path, fs: FS, p: Path)
    requires Sound(fs) && RemovalStage(before, dir, View(fs)) && Under(dir, p)
    ensures Sound(Unlink(fs, p)) && RemovalStage(before, dir, View(Unlink(fs, p)))
  {
    UnlinkStep(fs, p);
  }

  lemma RemovalDone(before: Tree, dir: Path, t: Tree)
    requires RemovalStage(before, dir, t) && forall p :: p in t ==> !Under(dir, p)
    ensures t == Without(before, dir)
  {
  }

  datatype DirEntry = DirEntry(name: string, isDir: bool)

  ghost predicate Lists(fs: FS, dir: Path, entries: seq<DirEntry>)
  {
    && (forall i, j :: 0 <= i < j < |entries| ==> entries[i] != entries[j])
    && (forall e :: e in entries <==> if e.isDir then dir + [e.name] in fs.dirs else dir + [e.name] in fs.names)
  }

  ghost predicate HasChild(fs: FS, dir: Path)
  {
    exists name :: dir + [name] in fs.names || dir + [name] in fs.dirs
  }

  /** What `os.Stat` finds at a path; a file on the way to it is an error of its own. */
  datatype Kind = Missing | File | Directory | Blocked

  function KindOf(fs: FS, p: Path): Kind
  {
    if BehindFile(fs, p) then Blocked
    else if p in fs.names then File
    else if p in fs.dirs then Directory
    else Missing
  }

  predicate BehindFile(fs: FS, p: Path)
  {
    exists i :: 0 <= i < |p| && p[..i] in fs.names
  }

  class Disk {
    var fs: FS
    /** The trees reached so far: what a crash may leave behind. */
    ghost var reached: set<Tree>

    ghost predicate Valid()
      reads this
    {
      Sound(fs)
    }

    ghost function Tree(): Tree
      requires Valid()
      reads this
    {
      View(fs)
    }

    constructor ()
      ensures Valid() && Tree() == map[] && fs.dirs == {[]} && reached == {map[]}
    {
      fs := FS(map[], map[], map[], 0, {[]});
      reached := {map[]};
    }

    method MkdirAll(dir: Path)
      requires Valid()
      modifies this
      ensures Valid() && Tree() == old(Tree()) && reached == old(reached)
      ensures fs.dirs == old(fs.dirs) + Ancestors(dir) && dir in fs.dirs
    {
      fs := fs.(dirs := fs.dirs + Ancestors(dir));
      assert dir == dir[..|dir|];
    }

    /** `name` is what the random pattern came out as, retried until no file has it. */
    method CreateTemp(dir: Path, name: string) returns (p: Path, ino: Inode)
      requires Valid() && dir in fs.dirs && dir + [name] !in Tree()
      modifies this
      ensures Valid() && p == dir + [name] && p in fs.names && fs.names[p] == ino
      ensures Tree() == old(Tree())[p := Raw([])]
      ensures fs.dirs == old(fs.dirs) && reached == old(reached) + {Tree()}
    {
      p := dir + [name];
      ino := fs.next;
      assert Parent(p) == dir;
      CreateStep(fs, p);
      fs := Create(fs, p);
      reached := reached + {View(fs)};
    }

    method Write(ino: Inode, ghost p: Path, bytes: Bytes)
      requires Valid() && p in fs.names && fs.names[p] == ino && Tree()[p].Raw?
      modifies this
      ensures Valid() && Tree() == old(Tree())[p := Raw(old(Tree())[p].bytes + bytes)]
      ensures fs.names == old(fs.names) && fs.dirs == old(fs.dirs) && reached == old(reached) + {Tree()}
    {
      var c := Raw(fs.inodes[ino].bytes + bytes);
      StoreStep(fs, p, c);
      fs := Store(fs, ino, c);
      reached := reached + {View(fs)};
    }

    method Rename(p: Path, q: Path)
      requires Valid() && p in Tree() && p != q && q != [] && Parent(q) in fs.dirs
      modifies this
      ensures Valid() && Tree() == (old(Tree()) - {p})[q := old(Tree())[p]]
      ensures fs.dirs == old(fs.dirs) && reached == old(reached) + {Tree()}
    {
      LinkStep(fs, p, q);
      fs := Link(fs, p, q);
      reached := reached + {View(fs)};
    }

    /** Reports whether there was a file to remove. */
    method Remove(p: Path) returns (existed: bool)
      requires Valid()
      modifies this
      ensures Valid() && existed == (p in old(Tree())) && Tree() == old(Tree()) - {p}
      ensures fs.dirs == old(fs.dirs) && reached == old(reached) + {Tree()}
    {
      existed := p in fs.names;
      UnlinkStep(fs, p);
      fs := Unlink(fs, p);
      reached := reached + {View(fs)};
    }

    method Exists(p: Path) returns (found: bool)
      requires Valid()
      ensures found == (p in Tree())
    {
      found := p in fs.names;
    }

    method Stat(p: Path) returns (kind: Kind)
      ensures kind == KindOf(fs, p)
    {
      kind := KindOf(fs, p);
    }

    method ReadFile(p: Path) returns (c: Option<Content>)
      requires Valid()
      ensures c == if p in Tree() then Some(Tree()[p]) else None
    {
      c := if p in fs.names then Some(fs.inodes[fs.names[p]]) else None;
    }

    /** An open file is its inode, whatever happens to its name later. */
    method Open(p: Path) returns (ino: Option<Inode>)
      requires Valid()
      ensures ino == if p in Tree() then Some(fs.names[p]) else None
    {
      ino := if p in fs.names then Some(fs.names[p]) else None;
    }

    method ReadAll(ino: Inode) returns (bytes: Bytes)
      requires ino in fs.inodes && fs.inodes[ino].Raw?
      ensures bytes == fs.inodes[ino].bytes
    {
      bytes := fs.inodes[ino].bytes;
    }

    /** `os.WriteFile`: truncate or create, then write.  Two steps, so a crash can leave the file empty. */
    method WriteFile(p: Path, doc: Document)
      requires Valid() && p != [] && Parent(p) in fs.dirs
      modifies this
      ensures Valid() && Tree() == old(Tree())[p := Json(doc)]
      ensures fs.dirs == old(fs.dirs) && reached == old(reached) + {old(Tree())[p := Raw([])], Tree()}
    {
      WriteFileStep(fs, p, Json(doc));
      fs := Truncate(fs, p);
      reached := reached + {View(fs)};
      fs := Store(fs, fs.names[p], Json(doc));
      reached := reached + {View(fs)};
    }

    /** Files go one at a time, in no particular order. */
    method RemoveAll(dir: Path)
      requires Valid()
      modifies this
      ensures Valid() && Tree() == Without(old(Tree()), dir)
      ensures fs.dirs == set d | d in old(fs.dirs) && !Under(dir, d)
      ensures forall t :: t in reached ==> t in old(reached) || RemovalStage(old(Tree()), dir, t)
    {
      var doomed := set p | p in fs.names && Under(dir, p);
      while doomed != {}
        invariant Valid() && fs.dirs == old(fs.dirs)
        invariant forall p :: p in doomed <==> p in fs.names && Under(dir, p)
        invariant RemovalStage(old(Tree()), dir, Tree())
        invariant forall t :: t in reached ==> t in old(reached) || RemovalStage(old(Tree()), dir, t)
        decreases |doomed|
      {
        var p :| p in doomed;
        RemovalStep(old(Tree()), dir, fs, p);
        fs := Unlink(fs, p);
        reached := reached + {View(fs)};
        doomed := doomed - {p};
      }
      RemovalDone(old(Tree()), dir, View(fs));
      DropDirsStep(fs, dir);
      fs := fs.(dirs := set d | d in fs.dirs && !Under(dir, d));
    }

    method ReadDir(dir: Path) returns (entries: seq<DirEntry>)
      requires Valid()
      ensures Lists(fs, dir, entries)
    {
      EntriesAreChildren(fs, dir);
      entries := Enumerate(Children(fs, dir));
    }
  }

  function Children(fs: FS, dir: Path): set<DirEntry>
  {
    (set p | p in fs.names && p != [] && Parent(p) == dir :: DirEntry(p[|p| - 1], false)) +
    (set d | d in fs.dirs && d != [] && Parent(d) == dir :: DirEntry(d[|d| - 1], true))
  }

  lemma EntriesAreChildren(fs: FS, dir: Path)
    ensures forall e :: e in Children(fs, dir) <==> if e.isDir then dir + [e.name] in fs.dirs
            else dir + [e.name] in fs.names
  {
    forall e: DirEntry
      ensures e in Children(fs, dir) <==> if e.isDir then dir + [e.name] in fs.dirs else dir + [e.name] in fs.names
    {
      assert Parent(dir + [e.name]) == dir;
      assert forall p: Path :: p != [] && Parent(p) == dir && p[|p| - 1] == e.name ==> p == dir + [e.name];
    }
  }

  method Enumerate<T>(s: set<T>) returns (r: seq<T>)
    ensures forall x :: x in r <==> x in s
    ensures forall i, j :: 0 <= i < j < |r| ==> r[i] != r[j]
  {
    var rest := s;
    r := [];
    while rest != {}
      invariant forall x :: x in s <==> x in rest || x in r
      invariant forall x :: x in r ==> x !in rest
      invariant forall i, j :: 0 <= i < j < |r| ==> r[i] != r[j]
      decreases |rest|
    {
      var x :| x in rest;
      r := r + [x];
      rest := rest - {x};
    }
  }
}
