/** What a page shows, told key by key: byte order, first delimiters, limits, and nothing of how the page is found. */
module Pages {
  import opened Types
  import opened ByteStrings
  import opened Listing
  import opened Grouping
  import opened Walking

  /** The key is the prefix, then `x`, then the delimiter, then `y`. */
  predicate Reads(key: string, prefix: string, x: string, delimiter: string, y: string)
  {
    key == prefix + x + delimiter + y
  }

  /** Is there a delimiter beyond the prefix? */
  ghost predicate RolledUp(key: string, prefix: string, delimiter: string)
  {
    delimiter != "" && exists x, y :: Reads(key, prefix, x, delimiter, y)
  }

  /** The key's common prefix is `group`: all of it up to and including the first delimiter beyond the prefix. */
  ghost predicate RollsInto(key: string, prefix: string, delimiter: string, group: string)
  {
    && delimiter != ""
    && exists x, y ::
      && Reads(key, prefix, x, delimiter, y) && group == prefix + x + delimiter
      && forall x', y' :: Reads(key, prefix, x', delimiter, y') ==> |x| <= |x'|
  }

  function Members(ms: seq<ObjectMeta>): set<ObjectMeta>
  {
    set m | m in ms
  }

  /** A stored key with the prefix, beyond the marker if there is one. */
  ghost predicate Candidate(all: set<ObjectMeta>, prefix: string, marker: string, m: ObjectMeta)
  {
    m in all && HasPrefix(m.key, prefix) && (marker != "" ==> ByteBefore(marker, m.key))
  }

  /** The page has the object, or the common prefix it is rolled up into. */
  ghost predicate Shown(m: ObjectMeta, prefix: string, delimiter: string, page: ListResult)
  {
    if RolledUp(m.key, prefix, delimiter) then
      exists p :: p in page.commonPrefixes && RollsInto(m.key, prefix, delimiter, p)
    else ObjectInfo(m.key, m.contentLength, m.lastModified, m.etag) in page.objects
  }

  /** Objects and common prefixes each come in byte order, none twice. */
  ghost predicate InByteOrder(page: ListResult)
  {
    && (forall i {:trigger page.objects[i]} :: 0 < i < |page.objects| ==>
          ByteBefore(page.objects[i - 1].key, page.objects[i].key))
    && (forall i {:trigger page.commonPrefixes[i]} :: 0 < i < |page.commonPrefixes| ==>
          ByteBefore(page.commonPrefixes[i - 1], page.commonPrefixes[i]))
  }

  /** Everything on the page comes of a candidate. */
  ghost predicate ShowsOnly(all: set<ObjectMeta>, prefix: string, delimiter: string, marker: string, page: ListResult)
  {
    && (forall info :: info in page.objects ==>
          exists m :: Candidate(all, prefix, marker, m) && !RolledUp(m.key, prefix, delimiter)
            && info == ObjectInfo(m.key, m.contentLength, m.lastModified, m.etag))
    && (forall p :: p in page.commonPrefixes ==>
          exists m :: Candidate(all, prefix, marker, m) && RollsInto(m.key, prefix, delimiter, p))
  }

  /** The page shows every candidate, if it is cut those not beyond its next marker. */
  ghost predicate ShowsAll(all: set<ObjectMeta>, prefix: string, delimiter: string, marker: string, page: ListResult)
  {
    forall m :: Candidate(all, prefix, marker, m) && (page.isTruncated ==> !ByteBefore(page.nextMarker, m.key)) ==>
      Shown(m, prefix, delimiter, page)
  }

  /** The page has at most `limit` entries.  It is cut only when full, with something beyond that it does not show. */
  ghost predicate KeepsTo(all: set<ObjectMeta>, prefix: string, delimiter: string, marker: string, limit: int,
                          page: ListResult)
  {
    && |page.objects| + |page.commonPrefixes| <= limit
    && (!page.isTruncated ==> page.nextMarker == "")
    && (page.isTruncated ==>
          && |page.objects| + |page.commonPrefixes| == limit
          && exists m :: Candidate(all, prefix, marker, m) && ByteBefore(page.nextMarker, m.key)
               && !Shown(m, prefix, delimiter, page))
  }

  ghost predicate ShowsPage(all: set<ObjectMeta>, prefix: string, delimiter: string, marker: string, limit: int,
                            page: ListResult)
  {
    && InByteOrder(page)
    && ShowsOnly(all, prefix, delimiter, marker, page) && ShowsAll(all, prefix, delimiter, marker, page)
    && KeepsTo(all, prefix, delimiter, marker, limit, page)
  }

  // ----- common prefixes -----

  lemma DelimiterOccurs(key: string, prefix: string, x: string, delimiter: string, y: string)
    requires Reads(key, prefix, x, delimiter, y)
    ensures HasPrefix(key, prefix) && OccursAt(key[|prefix|..], delimiter, |x|)
    ensures x == key[|prefix|..][..|x|]
  {
    var rest := key[|prefix|..];
    assert key == prefix + (x + delimiter + y);
    assert rest == x + delimiter + y;
    assert rest[|x|..|x| + |delimiter|] == delimiter;
  }

  lemma OccurrenceReads(key: string, prefix: string, delimiter: string, i: int)
    requires HasPrefix(key, prefix) && OccursAt(key[|prefix|..], delimiter, i)
    ensures var rest := key[|prefix|..]; Reads(key, prefix, rest[..i], delimiter, rest[i + |delimiter|..])
  {
    var rest := key[|prefix|..];
    assert rest == rest[..i] + delimiter + rest[i + |delimiter|..];
    assert key == prefix + rest;
  }

  /** The common prefix the loop finds is the one up to the first delimiter. */
  lemma RollsIntoPrefix(key: string, o: ListOptions)
    requires HasPrefix(key, o.prefix)
    ensures RolledUp(key, o.prefix, o.delimiter) <==> CommonPrefixOf(key, o).Some?
    ensures CommonPrefixOf(key, o).Some? ==> RollsInto(key, o.prefix, o.delimiter, CommonPrefixOf(key, o).value)
  {
    RolledUpAtFirstDelimiter(key, o);
    if CommonPrefixOf(key, o).Some? {
      FirstReading(key, o);
    }
    if RolledUp(key, o.prefix, o.delimiter) {
      var x, y :| Reads(key, o.prefix, x, o.delimiter, y);
      DelimiterOccurs(key, o.prefix, x, o.delimiter, y);
    }
  }

  lemma FirstReading(key: string, o: ListOptions)
    requires HasPrefix(key, o.prefix) && CommonPrefixOf(key, o).Some?
    ensures RollsInto(key, o.prefix, o.delimiter, CommonPrefixOf(key, o).value)
  {
    RolledUpAtFirstDelimiter(key, o);
    var rest := key[|o.prefix|..];
    var i :| OccursAt(rest, o.delimiter, i) && (forall j :: OccursAt(rest, o.delimiter, j) ==> i <= j)
      && CommonPrefixOf(key, o).value == o.prefix + rest[..i] + o.delimiter;
    OccurrenceReads(key, o.prefix, o.delimiter, i);
    NothingShorter(key, o, i);
    ReadsFirst(key, o.prefix, rest[..i], o.delimiter, rest[i + |o.delimiter|..]);
  }

  lemma NothingShorter(key: string, o: ListOptions, i: int)
    requires HasPrefix(key, o.prefix)
    requires forall j :: OccursAt(key[|o.prefix|..], o.delimiter, j) ==> i <= j
    ensures forall x, y :: Reads(key, o.prefix, x, o.delimiter, y) ==> i <= |x|
  {
    forall x, y | Reads(key, o.prefix, x, o.delimiter, y)
      ensures i <= |x|
    {
      DelimiterOccurs(key, o.prefix, x, o.delimiter, y);
    }
  }

  lemma ReadsFirst(key: string, prefix: string, x: string, delimiter: string, y: string)
    requires delimiter != "" && Reads(key, prefix, x, delimiter, y)
    requires forall x', y' :: Reads(key, prefix, x', delimiter, y') ==> |x| <= |x'|
    ensures RollsInto(key, prefix, delimiter, prefix + x + delimiter)
  {
  }

  /** There is only one. */
  lemma RollsIntoOne(key: string, prefix: string, delimiter: string, p: string, q: string)
    requires RollsInto(key, prefix, delimiter, p) && RollsInto(key, prefix, delimiter, q)
    ensures p == q
  {
    var x, y :| Reads(key, prefix, x, delimiter, y) && p == prefix + x + delimiter
      && forall x', y' :: Reads(key, prefix, x', delimiter, y') ==> |x| <= |x'|;
    var z, w :| Reads(key, prefix, z, delimiter, w) && q == prefix + z + delimiter
      && forall x', y' :: Reads(key, prefix, x', delimiter, y') ==> |z| <= |x'|;
    DelimiterOccurs(key, prefix, x, delimiter, y);
    DelimiterOccurs(key, prefix, z, delimiter, w);
  }

  // ----- the keys a page accounts for -----

  /** The first `n` keys beyond the marker are those the page accounts for. */
  ghost predicate IsHead(ms: seq<ObjectMeta>, o: ListOptions, n: nat)
  {
    var beyond := Beyond(ms, o.marker);
    && n <= |beyond| && Leaders(beyond[..n], o) == PageLeaders(ms, o)
    && (if Truncated(ms, o) then 0 < n < |beyond| && beyond[n - 1].key == NextMarker(ms, o) else n == |beyond|)
  }

  lemma HeadOfPage(ms: seq<ObjectMeta>, o: ListOptions) returns (n: nat)
    ensures IsHead(ms, o, n)
  {
    var beyond := Beyond(ms, o.marker);
    if Truncated(ms, o) {
      var t := LastOnPage(ms, o);
      n := t + 1;
    } else {
      n := |beyond|;
      TakeAll(beyond);
    }
  }

  lemma BeyondIsCandidate(ms: seq<ObjectMeta>, o: ListOptions, m: ObjectMeta)
    requires Listable(ms, o)
    ensures m in Beyond(ms, o.marker) <==> Candidate(Members(ms), o.prefix, o.marker, m)
  {
    BeyondMembers(ms, o.marker);
    LessIsByteOrder(o.marker, m.key);
    if m in ms {
      var i :| 0 <= i < |ms| && ms[i] == m;
    }
  }

  /** What the page shows of a candidate. */
  lemma ShownIffInHead(ms: seq<ObjectMeta>, o: ListOptions, n: nat, m: ObjectMeta)
    requires Listable(ms, o) && IsHead(ms, o, n) && m in Beyond(ms, o.marker)
    ensures Shown(m, o.prefix, o.delimiter, Page(ms, o)) <==>
            if CommonPrefixOf(m.key, o).Some?
            then CommonPrefixOf(m.key, o).value in PrefixSet(Beyond(ms, o.marker)[..n], o)
            else Info(m) in Objects(Beyond(ms, o.marker)[..n], o)
  {
    BeyondIsCandidate(ms, o, m);
    RollsIntoPrefix(m.key, o);
    LeadersLoseNothing(Beyond(ms, o.marker)[..n], o);
    if CommonPrefixOf(m.key, o).Some? {
      var p := CommonPrefixOf(m.key, o).value;
      CommonPrefixesMember(PageLeaders(ms, o), o, p);
      if q :| q in Page(ms, o).commonPrefixes && RollsInto(m.key, o.prefix, o.delimiter, q) {
        RollsIntoOne(m.key, o.prefix, o.delimiter, p, q);
      }
    }
  }

  lemma HeadIsShown(ms: seq<ObjectMeta>, o: ListOptions, n: nat, i: nat)
    requires Listable(ms, o) && IsHead(ms, o, n) && i < n
    ensures Shown(Beyond(ms, o.marker)[i], o.prefix, o.delimiter, Page(ms, o))
  {
    var beyond := Beyond(ms, o.marker);
    var head, m := beyond[..n], beyond[i];
    assert head[i] == m;
    ShownIffInHead(ms, o, n, m);
    ObjectsMember(head, o, Info(m));
    if CommonPrefixOf(m.key, o).Some? {
      PrefixSetMember(head, o, CommonPrefixOf(m.key, o).value);
    }
  }

  lemma PageShowsAll(ms: seq<ObjectMeta>, o: ListOptions)
    requires Listable(ms, o)
    ensures ShowsAll(Members(ms), o.prefix, o.delimiter, o.marker, Page(ms, o))
  {
    var n := HeadOfPage(ms, o);
    var c := BeyondIsSuffix(ms, o.marker);
    AscendingParts(ms, c);
    var beyond, page := Beyond(ms, o.marker), Page(ms, o);
    forall m | Candidate(Members(ms), o.prefix, o.marker, m)
      && (page.isTruncated ==> !ByteBefore(page.nextMarker, m.key))
      ensures Shown(m, o.prefix, o.delimiter, page)
    {
      BeyondIsCandidate(ms, o, m);
      var i :| 0 <= i < |beyond| && beyond[i] == m;
      if n <= i {
        InOrder(beyond, n - 1, i);
        LessIsByteOrder(page.nextMarker, m.key);
      }
      HeadIsShown(ms, o, n, i);
    }
  }

  lemma PageShowsOnly(ms: seq<ObjectMeta>, o: ListOptions)
    requires Listable(ms, o)
    ensures ShowsOnly(Members(ms), o.prefix, o.delimiter, o.marker, Page(ms, o))
  {
    var n := HeadOfPage(ms, o);
    var all, head, page := Members(ms), Beyond(ms, o.marker)[..n], Page(ms, o);
    LeadersLoseNothing(head, o);
    forall info | info in page.objects
      ensures exists m :: Candidate(all, o.prefix, o.marker, m) && !RolledUp(m.key, o.prefix, o.delimiter)
                && info == ObjectInfo(m.key, m.contentLength, m.lastModified, m.etag)
    {
      ObjectsMember(head, o, info);
      var m :| m in head && CommonPrefixOf(m.key, o).None? && Info(m) == info;
      BeyondIsCandidate(ms, o, m);
      RollsIntoPrefix(m.key, o);
    }
    forall p | p in page.commonPrefixes
      ensures exists m :: Candidate(all, o.prefix, o.marker, m) && RollsInto(m.key, o.prefix, o.delimiter, p)
    {
      CommonPrefixesMember(PageLeaders(ms, o), o, p);
      PrefixSetMember(head, o, p);
      var i :| 0 <= i < |head| && CommonPrefixOf(head[i].key, o) == Some(p);
      BeyondIsCandidate(ms, o, head[i]);
      RollsIntoPrefix(head[i].key, o);
    }
  }

  // ----- order -----

  lemma {:induction false} ObjectsAscend(ms: seq<ObjectMeta>, o: ListOptions)
    requires Ascending(ms)
    ensures forall i, j :: 0 <= i < j < |Objects(ms, o)| ==> Less(Objects(ms, o)[i].key, Objects(ms, o)[j].key)
  {
    if ms != [] {
      var n := |ms| - 1;
      AscendingParts(ms, n);
      ObjectsAscend(ms[..n], o);
      var rest := Objects(ms[..n], o);
      forall i | 0 <= i < |rest|
        ensures Less(rest[i].key, ms[n].key)
      {
        assert rest[i] in rest;
        ObjectsMember(ms[..n], o, rest[i]);
        var m :| m in ms[..n] && CommonPrefixOf(m.key, o).None? && Info(m) == rest[i];
        var j :| 0 <= j < n && ms[..n][j] == m;
        InOrder(ms, j, n);
      }
    }
  }

  lemma PageInByteOrder(ms: seq<ObjectMeta>, o: ListOptions)
    requires Listable(ms, o)
    ensures InByteOrder(Page(ms, o))
  {
    var n := HeadOfPage(ms, o);
    var c := BeyondIsSuffix(ms, o.marker);
    AscendingParts(ms, c);
    AscendingParts(Beyond(ms, o.marker), n);
    var head, page := Beyond(ms, o.marker)[..n], Page(ms, o);
    LeadersLoseNothing(head, o);
    ObjectsAscend(head, o);
    forall i {:trigger page.objects[i]} | 0 < i < |page.objects|
      ensures ByteBefore(page.objects[i - 1].key, page.objects[i].key)
    {
      LessIsByteOrder(page.objects[i - 1].key, page.objects[i].key);
    }
    PagePrefixesAscend(ms, o);
    forall i {:trigger page.commonPrefixes[i]} | 0 < i < |page.commonPrefixes|
      ensures ByteBefore(page.commonPrefixes[i - 1], page.commonPrefixes[i])
    {
      LessIsByteOrder(page.commonPrefixes[i - 1], page.commonPrefixes[i]);
    }
  }

  // ----- cuts -----

  /** The entry that is one too many starts beyond the head of a page that is cut. */
  lemma FirstBeyondPage(ms: seq<ObjectMeta>, o: ListOptions, n: nat) returns (i: nat)
    requires Listable(ms, o) && IsHead(ms, o, n) && Truncated(ms, o)
    ensures n <= i < |Beyond(ms, o.marker)|
    ensures Leaders(Beyond(ms, o.marker)[..i + 1], o) == PageLeaders(ms, o) + [Beyond(ms, o.marker)[i]]
  {
    var beyond, all := Beyond(ms, o.marker), Reference(ms, o);
    i := LeaderPosition(beyond, o, EffectiveMax(o));
    TakeOneMore(all, EffectiveMax(o));
    MoreLeadersMoreKeys(beyond, o, i + 1, n);
  }

  lemma MoreLeadersMoreKeys(ms: seq<ObjectMeta>, o: ListOptions, a: nat, b: nat)
    requires a <= |ms| && b <= |ms| && |Leaders(ms[..b], o)| < |Leaders(ms[..a], o)|
    ensures b < a
  {
    if a <= b {
      MoreKeysMoreLeaders(ms, o, a, b);
    }
  }

  lemma TakeOneMore<T>(s: seq<T>, n: nat)
    requires n < |s|
    ensures s[..n + 1] == s[..n] + [s[n]]
  {
  }

  lemma MoreKeysMoreLeaders(ms: seq<ObjectMeta>, o: ListOptions, a: nat, b: nat)
    requires a <= b <= |ms|
    ensures |Leaders(ms[..a], o)| <= |Leaders(ms[..b], o)|
  {
    LeadersGrow(ms[..b], a, o);
    assert ms[..b][..a] == ms[..a];
  }

  lemma BeyondIsNotShown(ms: seq<ObjectMeta>, o: ListOptions, n: nat, i: nat)
    requires Listable(ms, o) && IsHead(ms, o, n) && Truncated(ms, o) && n <= i < |Beyond(ms, o.marker)|
    requires Leaders(Beyond(ms, o.marker)[..i + 1], o) == PageLeaders(ms, o) + [Beyond(ms, o.marker)[i]]
    ensures !Shown(Beyond(ms, o.marker)[i], o.prefix, o.delimiter, Page(ms, o))
  {
    var beyond := Beyond(ms, o.marker);
    var m, head := beyond[i], beyond[..n];
    var c := BeyondIsSuffix(ms, o.marker);
    ListableInit(ms, o, c);
    ShownIffInHead(ms, o, n, m);
    if CommonPrefixOf(m.key, o).Some? {
      NewGroup(beyond[..i + 1], PageLeaders(ms, o), m, o, c, beyond, i);
      LeadersLoseNothing(head, o);
    } else {
      ObjectsMember(head, o, Info(m));
      if x :| x in head && CommonPrefixOf(x.key, o).None? && Info(x) == Info(m) {
        var j :| 0 <= j < n && head[j] == x;
        InOrder(beyond, j, i);
        LessIrreflexive(m.key);
      }
    }
  }

  /** A leader's common prefix is not that of an earlier leader. */
  lemma NewGroup(ms: seq<ObjectMeta>, leaders: seq<ObjectMeta>, m: ObjectMeta, o: ListOptions, c: nat,
                 beyond: seq<ObjectMeta>, i: nat)
    requires i < |beyond| && ms == beyond[..i + 1] && Listable(beyond, o)
    requires Leaders(ms, o) == leaders + [m] && CommonPrefixOf(m.key, o).Some?
    ensures CommonPrefixOf(m.key, o).value !in PrefixSet(leaders, o)
  {
    var p := CommonPrefixOf(m.key, o).value;
    ListableInit(beyond, o, i + 1);
    CommonPrefixesAscend(ms, o);
    EntryStep(leaders, m, o);
    CommonPrefixesMember(leaders, o, p);
    var ps := CommonPrefixes(leaders, o);
    if p in ps {
      var j :| 0 <= j < |ps| && ps[j] == p;
      assert (ps + [p])[j] == p && (ps + [p])[|ps|] == p;
      LessIrreflexive(p);
    }
  }

  lemma PageKeepsTo(ms: seq<ObjectMeta>, o: ListOptions)
    requires Listable(ms, o)
    ensures KeepsTo(Members(ms), o.prefix, o.delimiter, o.marker, if o.maxKeys <= 0 then 1000 else o.maxKeys,
                    Page(ms, o))
  {
    PageSeparatesEntries(ms, o);
    if Truncated(ms, o) {
      var n := HeadOfPage(ms, o);
      var i := FirstBeyondPage(ms, o, n);
      var beyond := Beyond(ms, o.marker);
      BeyondIsNotShown(ms, o, n, i);
      BeyondIsCandidate(ms, o, beyond[i]);
      var c := BeyondIsSuffix(ms, o.marker);
      AscendingParts(ms, c);
      InOrder(beyond, n - 1, i);
      LessIsByteOrder(NextMarker(ms, o), beyond[i].key);
    }
  }

  /** A page of sorted keys shows what it should, whatever prefix, delimiter, marker and limit are asked for. */
  lemma PageShows(ms: seq<ObjectMeta>, o: ListOptions)
    requires Listable(ms, o)
    ensures ShowsPage(Members(ms), o.prefix, o.delimiter, o.marker, if o.maxKeys <= 0 then 1000 else o.maxKeys,
                      Page(ms, o))
  {
    PageInByteOrder(ms, o);
    PageShowsOnly(ms, o);
    PageShowsAll(ms, o);
    PageKeepsTo(ms, o);
  }

  /** Only the keys with the prefix matter. */
  lemma SameCandidates(a: set<ObjectMeta>, b: set<ObjectMeta>, prefix: string, delimiter: string, marker: string,
                       limit: int, page: ListResult)
    requires forall m: ObjectMeta :: HasPrefix(m.key, prefix) ==> (m in a <==> m in b)
    requires ShowsPage(a, prefix, delimiter, marker, limit, page)
    ensures ShowsPage(b, prefix, delimiter, marker, limit, page)
  {
    assert forall m :: Candidate(a, prefix, marker, m) <==> Candidate(b, prefix, marker, m);
  }
}
