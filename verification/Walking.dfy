/** Clients list a bucket page by page, sending each page's `NextMarker` as the next marker. What such a walk returns.
    */
module Walking {
  import opened Types
  import opened ByteStrings
  import opened Collapsing
  import opened Listing
  import opened Grouping

  /** A stored empty key that fills a first page on its own is the one case in which the next marker comes out empty,
      which means no marker at all. */
  predicate Progresses(ms: seq<ObjectMeta>, o: ListOptions)
  {
    EffectiveMax(o) > 1 || o.marker != "" || |ms| <= 1 || ms[0].key != ""
  }

  /** The entries of one page, objects and common prefixes together, in key order. */
  function PageEntries(ms: seq<ObjectMeta>, o: ListOptions): seq<Entry>
  {
    Labels(PageLeaders(ms, o), o)
  }

  function ItemsOf(es: seq<Entry>): seq<ObjectInfo>
  {
    if es == [] then []
    else
      var rest := ItemsOf(es[..|es| - 1]);
      if es[|es| - 1].Item? then rest + [es[|es| - 1].info] else rest
  }

  function GroupsOf(es: seq<Entry>): seq<string>
  {
    if es == [] then []
    else
      var rest := GroupsOf(es[..|es| - 1]);
      if es[|es| - 1].Group? then rest + [es[|es| - 1].prefix] else rest
  }

  /** The requests of a walk, up to the first page that is not truncated. */
  function Walk(ms: seq<ObjectMeta>, o: ListOptions): (requests: seq<ListOptions>)
    requires Listable(ms, o) && Progresses(ms, o)
    ensures requests != []
    decreases |Beyond(ms, o.marker)|
  {
    if Truncated(ms, o) then
      var next := o.(marker := NextMarker(ms, o));
      NextPageIsShorter(ms, o);
      [o] + Walk(ms, next)
    else [o]
  }

  function EntriesOver(ms: seq<ObjectMeta>, requests: seq<ListOptions>): seq<Entry>
  {
    if requests == [] then [] else PageEntries(ms, requests[0]) + EntriesOver(ms, requests[1..])
  }

  // ----- where a truncated page cuts the keys -----

  /** Each leader ends a stretch of keys that produces exactly the leaders up to it. */
  lemma {:induction false} LeaderPosition(ms: seq<ObjectMeta>, o: ListOptions, j: nat) returns (t: nat)
    requires j < |Leaders(ms, o)|
    ensures t < |ms| && ms[t] == Leaders(ms, o)[j] && Leaders(ms[..t + 1], o) == Leaders(ms, o)[..j + 1]
  {
    var short := ms[..|ms| - 1];
    var all, rest := Leaders(ms, o), Leaders(short, o);
    LeadersOneMore(ms, o);
    if j < |rest| {
      t := LeaderPosition(short, o, j);
      SameStart(short, ms, t);
      SameStart(rest, all, j);
    } else {
      t := |ms| - 1;
      LastIsLeader(ms, o, j);
    }
  }

  lemma LastIsLeader(ms: seq<ObjectMeta>, o: ListOptions, j: nat)
    requires ms != [] && |Leaders(ms[..|ms| - 1], o)| <= j < |Leaders(ms, o)|
    ensures ms[|ms| - 1] == Leaders(ms, o)[j] && Leaders(ms[..|ms|], o) == Leaders(ms, o)[..j + 1]
  {
    LeadersOneMore(ms, o);
    TakeAll(ms);
    TakeAll(Leaders(ms, o));
  }

  lemma SameStart<T>(a: seq<T>, b: seq<T>, i: nat)
    requires i < |a| && (b == a || (b != [] && b[..|b| - 1] == a) || (b != [] && b == a + [b[|b| - 1]]))
    ensures i < |b| && b[i] == a[i] && b[..i + 1] == a[..i + 1]
  {
  }

  lemma TakeAll<T>(s: seq<T>)
    ensures s[..|s|] == s
  {
  }

  lemma LeadersOneMore(ms: seq<ObjectMeta>, o: ListOptions)
    requires ms != []
    ensures var rest := Leaders(ms[..|ms| - 1], o);
            Leaders(ms, o) == rest || Leaders(ms, o) == rest + [ms[|ms| - 1]]
  {
  }

  lemma InSuffix<T>(s: seq<T>, c: nat, suffix: seq<T>, i: nat)
    requires c <= |s| && suffix == s[c..] && i < |suffix|
    ensures c + i < |s| && suffix[i] == s[c + i]
  {
  }

  predicate LiesBeyond(ms: seq<ObjectMeta>, marker: string, i: int)
    requires 0 <= i < |ms|
  {
    After(ms[i].key, marker)
  }

  /** In ascending keys, the part beyond a marker is a suffix. */
  lemma {:induction false} BeyondIsSuffix(ms: seq<ObjectMeta>, marker: string) returns (c: nat)
    requires Ascending(ms)
    ensures c <= |ms| && Beyond(ms, marker) == ms[c..]
    ensures forall i {:trigger LiesBeyond(ms, marker, i)} :: 0 <= i < |ms| ==> (LiesBeyond(ms, marker, i) <==> c <= i)
  {
    if ms == [] {
      c := 0;
    } else {
      var n := |ms| - 1;
      AscendingParts(ms, n);
      c := BeyondIsSuffix(ms[..n], marker);
      if After(ms[n].key, marker) {
        assert ms[c..] == ms[..n][c..] + [ms[n]];
      } else {
        if c < n {
          assert LiesBeyond(ms[..n], marker, c);
          InOrder(ms, c, n);
          LessTransitive(marker, ms[c].key, ms[n].key);
        }
        c := n + 1;
      }
      forall i | 0 <= i < |ms|
        ensures LiesBeyond(ms, marker, i) <==> c <= i
      {
        assert i < n ==> (LiesBeyond(ms, marker, i) <==> LiesBeyond(ms[..n], marker, i));
      }
    }
  }

  lemma {:induction false} PrefixesOfPart(ms: seq<ObjectMeta>, o: ListOptions, n: nat)
    requires n <= |ms|
    ensures CommonPrefixes(ms[..n], o) <= CommonPrefixes(ms, o)
  {
    if n < |ms| {
      var short := ms[..|ms| - 1];
      PrefixesOfPart(short, o, n);
      assert short[..n] == ms[..n];
    } else {
      TakeAll(ms);
    }
  }

  /** The common prefixes of a page come in byte order, so none is listed twice. */
  lemma PagePrefixesAscend(ms: seq<ObjectMeta>, o: ListOptions)
    requires Listable(ms, o)
    ensures StrictlyAscending(Page(ms, o).commonPrefixes)
  {
    var c := BeyondIsSuffix(ms, o.marker);
    ListableInit(ms, o, c);
    CommonPrefixesAscend(Beyond(ms, o.marker), o);
    PrefixesOfPart(Reference(ms, o), o, |PageLeaders(ms, o)|);
    TakeAll(Reference(ms, o));
  }

  // ----- when a next marker is empty -----

  lemma NothingBelowEmpty(key: string)
    ensures !Less(key, "")
  {
  }

  lemma EmptyKeyIsFirst(ms: seq<ObjectMeta>, i: nat)
    requires Ascending(ms) && i < |ms| && ms[i].key == ""
    ensures i == 0
  {
    InOrder(ms, 0, i);
    NothingBelowEmpty(ms[0].key);
  }

  lemma {:induction false} LeadersShrink(ms: seq<ObjectMeta>, o: ListOptions)
    ensures |Leaders(ms, o)| <= |ms|
    ensures ms != [] ==> Leaders(ms, o) != [] && Leaders(ms, o)[0] == ms[0]
  {
    if ms != [] {
      LeadersShrink(ms[..|ms| - 1], o);
    }
  }

  /** Where the last key of a truncated page stands, and how far the page must have read. */
  lemma CutLeader(ms: seq<ObjectMeta>, o: ListOptions) returns (c: nat, t: nat)
    requires Listable(ms, o) && Truncated(ms, o)
    ensures c + t < |ms| && ms[c + t].key == NextMarker(ms, o) && After(ms[c + t].key, o.marker)
            && EffectiveMax(o) <= t + 1
  {
    c := BeyondIsSuffix(ms, o.marker);
    t := LastLeader(Beyond(ms, o.marker), o, EffectiveMax(o));
    InSuffix(ms, c, Beyond(ms, o.marker), t);
    assert LiesBeyond(ms, o.marker, c + t);
  }

  lemma LastLeader(ms: seq<ObjectMeta>, o: ListOptions, n: nat) returns (t: nat)
    requires 1 <= n <= |Leaders(ms, o)|
    ensures t < |ms| && ms[t] == Leaders(ms, o)[n - 1] && n <= t + 1
  {
    t := LeaderPosition(ms, o, n - 1);
    LeadersShrink(ms[..t + 1], o);
  }

  lemma TruncatedHasMore(ms: seq<ObjectMeta>, o: ListOptions)
    requires Ascending(ms) && Truncated(ms, o)
    ensures |ms| > EffectiveMax(o)
  {
    var c := BeyondIsSuffix(ms, o.marker);
    LeadersShrink(Beyond(ms, o.marker), o);
  }

  lemma MarkerIsNotEmpty(ms: seq<ObjectMeta>, o: ListOptions)
    requires Listable(ms, o) && Progresses(ms, o) && Truncated(ms, o)
    ensures NextMarker(ms, o) != ""
  {
    if NextMarker(ms, o) == "" {
      var c, t := CutLeader(ms, o);
      EmptyKeyIsFirst(ms, c + t);
      NothingBelowEmpty(o.marker);
      TruncatedHasMore(ms, o);
    }
  }

  /** A truncated page ends at some key `t` beyond the marker; the next page starts at the key after it. */
  lemma CutPoint(ms: seq<ObjectMeta>, o: ListOptions) returns (t: nat)
    requires Listable(ms, o) && Progresses(ms, o) && Truncated(ms, o)
    ensures var beyond := Beyond(ms, o.marker);
            && t + 1 < |beyond|
            && beyond[t].key == NextMarker(ms, o)
            && Leaders(beyond[..t + 1], o) == PageLeaders(ms, o)
            && Beyond(ms, NextMarker(ms, o)) == beyond[t + 1..]
    ensures Listable(Beyond(ms, o.marker), o)
  {
    t := LastOnPage(ms, o);
    MarkerIsNotEmpty(ms, o);
    SuffixAfterKey(ms, o, t);
  }

  lemma LastOnPage(ms: seq<ObjectMeta>, o: ListOptions) returns (t: nat)
    requires Truncated(ms, o)
    ensures var beyond := Beyond(ms, o.marker);
            && t + 1 < |beyond|
            && beyond[t].key == NextMarker(ms, o)
            && Leaders(beyond[..t + 1], o) == PageLeaders(ms, o)
  {
    var beyond := Beyond(ms, o.marker);
    t := LeaderPosition(beyond, o, EffectiveMax(o) - 1);
    MoreLeadersFollow(beyond, o, t, EffectiveMax(o));
  }

  lemma MoreLeadersFollow(ms: seq<ObjectMeta>, o: ListOptions, t: nat, n: nat)
    requires t < |ms| && n < |Leaders(ms, o)| && Leaders(ms[..t + 1], o) == Leaders(ms, o)[..n]
    ensures t + 1 < |ms|
  {
    TakeAll(ms);
  }

  lemma SuffixAfterKey(ms: seq<ObjectMeta>, o: ListOptions, t: nat)
    requires Listable(ms, o) && t < |Beyond(ms, o.marker)| && Beyond(ms, o.marker)[t].key != ""
    ensures Beyond(ms, Beyond(ms, o.marker)[t].key) == Beyond(ms, o.marker)[t + 1..]
    ensures Listable(Beyond(ms, o.marker), o)
  {
    var c := BeyondIsSuffix(ms, o.marker);
    var c' := BeyondIsSuffix(ms, ms[c + t].key);
    SuffixAfter(ms, c + t, c');
    ListableInit(ms, o, c);
  }

  lemma SuffixAfter(ms: seq<ObjectMeta>, i: nat, c: nat)
    requires Ascending(ms) && i < |ms| && ms[i].key != "" && c <= |ms|
    requires forall j {:trigger LiesBeyond(ms, ms[i].key, j)} :: 0 <= j < |ms| ==>
             (LiesBeyond(ms, ms[i].key, j) <==> c <= j)
    ensures c == i + 1
  {
    LessIrreflexive(ms[i].key);
    assert !LiesBeyond(ms, ms[i].key, i);
    if i + 1 < |ms| {
      InOrder(ms, i, i + 1);
      assert LiesBeyond(ms, ms[i].key, i + 1);
    }
  }

  lemma NextPageIsShorter(ms: seq<ObjectMeta>, o: ListOptions)
    requires Listable(ms, o) && Progresses(ms, o) && Truncated(ms, o)
    ensures |Beyond(ms, NextMarker(ms, o))| < |Beyond(ms, o.marker)|
    ensures Progresses(ms, o.(marker := NextMarker(ms, o)))
  {
    MarkerIsNotEmpty(ms, o);
    var t := CutPoint(ms, o);
  }

  /** A truncated page's marker is a stored key, non-empty and strictly above the marker of the request. */
  lemma NextMarkerProgresses(ms: seq<ObjectMeta>, o: ListOptions)
    requires Listable(ms, o) && Progresses(ms, o) && Truncated(ms, o)
    ensures NextMarker(ms, o) != "" && After(NextMarker(ms, o), o.marker)
    ensures exists m :: m in ms && m.key == NextMarker(ms, o)
  {
    MarkerIsNotEmpty(ms, o);
    var t := CutPoint(ms, o);
    BeyondMembers(ms, o.marker);
    assert Beyond(ms, o.marker)[t] in Beyond(ms, o.marker);
  }

  // ----- whole walks -----

  lemma ReferenceEntries(ms: seq<ObjectMeta>, o: ListOptions)
    requires Listable(ms, o)
    ensures Labels(Reference(ms, o), o) == Collapse(Labels(Beyond(ms, o.marker), o))
  {
    var c := BeyondIsSuffix(ms, o.marker);
    ListableInit(ms, o, c);
    SeenSetIsLastSeen(Beyond(ms, o.marker), o);
  }

  /** A page's entries are the collapsed labels of the keys up to its cut. */
  lemma PageIsCollapsedHead(ms: seq<ObjectMeta>, o: ListOptions) returns (t: nat)
    requires Listable(ms, o) && Progresses(ms, o) && Truncated(ms, o)
    ensures var beyond := Beyond(ms, o.marker);
            && t + 1 < |beyond|
            && beyond[t].key == NextMarker(ms, o)
            && Beyond(ms, NextMarker(ms, o)) == beyond[t + 1..]
            && PageEntries(ms, o) == Collapse(Labels(beyond[..t + 1], o))
            && Labels(beyond, o) == Labels(beyond[..t + 1], o) + Labels(beyond[t + 1..], o)
  {
    t := CutPoint(ms, o);
    var beyond := Beyond(ms, o.marker);
    ListableInit(beyond, o, t + 1);
    SeenSetIsLastSeen(beyond[..t + 1], o);
    LabelsSplit(beyond, o, t + 1);
  }

  /** Apart from adjacent repeats, a walk returns the reference listing. */
  lemma {:induction false} WalkCoversReference(ms: seq<ObjectMeta>, o: ListOptions)
    requires Listable(ms, o) && Progresses(ms, o)
    ensures Collapse(EntriesOver(ms, Walk(ms, o))) == Labels(Reference(ms, o), o)
    decreases |Beyond(ms, o.marker)|
  {
    ReferenceEntries(ms, o);
    if Truncated(ms, o) {
      var next := o.(marker := NextMarker(ms, o));
      NextPageIsShorter(ms, o);
      WalkCoversReference(ms, next);
      ReferenceEntries(ms, next);
      var t := PageIsCollapsedHead(ms, o);
      var beyond := Beyond(ms, o.marker);
      SameLabels(beyond[t + 1..], o, next);
      SameLabels(Reference(ms, next), o, next);
      WalkUnfolds(ms, o);
      Stitch(Labels(beyond[..t + 1], o), Labels(beyond[t + 1..], o), EntriesOver(ms, Walk(ms, next)));
    } else {
      SinglePage(ms, o);
      CollapseIdempotent(Labels(Beyond(ms, o.marker), o));
    }
  }

  lemma Stitch(head: seq<Entry>, tail: seq<Entry>, rest: seq<Entry>)
    requires Collapse(rest) == Collapse(tail)
    ensures Collapse(Collapse(head) + rest) == Collapse(head + tail)
  {
    CollapsePieces(Collapse(head), rest);
    CollapseIdempotent(head);
    CollapsePieces(head, tail);
  }

  lemma WalkUnfolds(ms: seq<ObjectMeta>, o: ListOptions)
    requires Listable(ms, o) && Progresses(ms, o) && Truncated(ms, o)
    ensures Progresses(ms, o.(marker := NextMarker(ms, o)))
    ensures var next := o.(marker := NextMarker(ms, o));
            && Walk(ms, o) == [o] + Walk(ms, next)
            && EntriesOver(ms, Walk(ms, o)) == PageEntries(ms, o) + EntriesOver(ms, Walk(ms, next))
  {
    NextPageIsShorter(ms, o);
    var next := o.(marker := NextMarker(ms, o));
    assert ([o] + Walk(ms, next))[1..] == Walk(ms, next);
  }

  lemma SinglePage(ms: seq<ObjectMeta>, o: ListOptions)
    requires Listable(ms, o) && Progresses(ms, o) && !Truncated(ms, o)
    ensures Walk(ms, o) == [o] && EntriesOver(ms, Walk(ms, o)) == PageEntries(ms, o) && Splits(ms, Walk(ms, o)) == 0
  {
    assert [o][1..] == [];
    assert EntriesOver(ms, [o][1..]) == [];
    assert Splits(ms, [o][1..]) == 0;
  }

  /** The marker plays no part in classifying keys. */
  lemma {:induction false} SameLabels(ms: seq<ObjectMeta>, o: ListOptions, o': ListOptions)
    requires o' == o.(marker := o'.marker)
    ensures Labels(ms, o) == Labels(ms, o')
    ensures PrefixSet(ms, o) == PrefixSet(ms, o')
  {
    if ms != [] {
      SameLabels(ms[..|ms| - 1], o, o');
    }
  }

  /** A walk ends, after at most one page per matching key. */
  lemma {:induction false} WalkIsShort(ms: seq<ObjectMeta>, o: ListOptions)
    requires Listable(ms, o) && Progresses(ms, o)
    ensures |Walk(ms, o)| == 1 || |Walk(ms, o)| <= |Beyond(ms, o.marker)|
    ensures !Truncated(ms, Walk(ms, o)[|Walk(ms, o)| - 1])
    decreases |Beyond(ms, o.marker)|
  {
    if Truncated(ms, o) {
      var next := o.(marker := NextMarker(ms, o));
      NextPageIsShorter(ms, o);
      WalkIsShort(ms, next);
      WalkUnfolds(ms, o);
      var t := CutPoint(ms, o);
    }
  }

  lemma {:induction false} ItemsOfConcat(a: seq<Entry>, b: seq<Entry>)
    ensures ItemsOf(a + b) == ItemsOf(a) + ItemsOf(b)
  {
    if b == [] {
      assert a + b == a;
    } else {
      ItemsOfConcat(a, b[..|b| - 1]);
      assert (a + b)[..|a + b| - 1] == a + b[..|b| - 1];
    }
  }

  lemma {:induction false} ItemsOfLabels(ms: seq<ObjectMeta>, o: ListOptions)
    ensures ItemsOf(Labels(ms, o)) == Objects(ms, o) && GroupsOf(Labels(ms, o)) == CommonPrefixes(ms, o)
    ensures |Labels(ms, o)| == |ms|
  {
    if ms != [] {
      ItemsOfLabels(ms[..|ms| - 1], o);
    }
  }

  /** A page's two lists are its entries, separated; together they never exceed the limit. */
  lemma PageSeparatesEntries(ms: seq<ObjectMeta>, o: ListOptions)
    ensures Page(ms, o).objects == ItemsOf(PageEntries(ms, o))
    ensures Page(ms, o).commonPrefixes == GroupsOf(PageEntries(ms, o))
    ensures |Page(ms, o).objects| + |Page(ms, o).commonPrefixes| == |PageEntries(ms, o)| <= EffectiveMax(o)
    ensures Page(ms, o).isTruncated ==> |PageEntries(ms, o)| == EffectiveMax(o)
  {
    ItemsOfLabels(PageLeaders(ms, o), o);
    CountEntries(PageEntries(ms, o));
  }

  lemma {:induction false} CountEntries(es: seq<Entry>)
    ensures |ItemsOf(es)| + |GroupsOf(es)| == |es|
  {
    if es != [] {
      CountEntries(es[..|es| - 1]);
    }
  }

  /** A walk returns every object that is not rolled up exactly once, in ascending key order. */
  lemma {:induction false} WalkReturnsObjectsOnce(ms: seq<ObjectMeta>, o: ListOptions)
    requires Listable(ms, o) && Progresses(ms, o)
    ensures ItemsOf(EntriesOver(ms, Walk(ms, o))) == Objects(Beyond(ms, o.marker), o)
    decreases |Beyond(ms, o.marker)|
  {
    if Truncated(ms, o) {
      var next := o.(marker := NextMarker(ms, o));
      NextPageIsShorter(ms, o);
      WalkReturnsObjectsOnce(ms, next);
      WalkUnfolds(ms, o);
      ItemsOfConcat(PageEntries(ms, o), EntriesOver(ms, Walk(ms, next)));
      ObjectsOfPage(ms, o);
    } else {
      SinglePage(ms, o);
      ItemsOfLabels(Reference(ms, o), o);
      LeadersLoseNothing(Beyond(ms, o.marker), o);
    }
  }

  lemma ObjectsOfPage(ms: seq<ObjectMeta>, o: ListOptions)
    requires Listable(ms, o) && Progresses(ms, o) && Truncated(ms, o)
    ensures var next := o.(marker := NextMarker(ms, o));
            Objects(Beyond(ms, o.marker), o) == ItemsOf(PageEntries(ms, o)) + Objects(Beyond(ms, next.marker), next)
  {
    var next := o.(marker := NextMarker(ms, o));
    var t := CutPoint(ms, o);
    var beyond := Beyond(ms, o.marker);
    ItemsOfLabels(PageLeaders(ms, o), o);
    LeadersLoseNothing(beyond[..t + 1], o);
    ObjectsSplit(beyond, t + 1, o);
    SameObjects(beyond[t + 1..], o, next);
  }

  lemma ObjectsSplit(ms: seq<ObjectMeta>, n: nat, o: ListOptions)
    requires n <= |ms|
    ensures Objects(ms, o) == Objects(ms[..n], o) + Objects(ms[n..], o)
  {
    ObjectsConcat(ms[..n], ms[n..], o);
    assert ms == ms[..n] + ms[n..];
  }

  lemma {:induction false} ObjectsConcat(a: seq<ObjectMeta>, b: seq<ObjectMeta>, o: ListOptions)
    ensures Objects(a + b, o) == Objects(a, o) + Objects(b, o)
  {
    if b == [] {
      assert a + b == a;
    } else {
      ObjectsConcat(a, b[..|b| - 1], o);
      assert (a + b)[..|a + b| - 1] == a + b[..|b| - 1];
    }
  }

  lemma {:induction false} SameObjects(ms: seq<ObjectMeta>, o: ListOptions, o': ListOptions)
    requires o' == o.(marker := o'.marker)
    ensures Objects(ms, o) == Objects(ms, o')
  {
    if ms != [] {
      SameObjects(ms[..|ms| - 1], o, o');
    }
  }

  // ----- when a walk repeats a common prefix -----

  /** The key is rolled up, and so are later keys, into the same common prefix. */
  predicate Straddles(ms: seq<ObjectMeta>, o: ListOptions, key: string)
  {
    && CommonPrefixOf(key, o).Some?
    && exists i :: 0 <= i < |ms| && Less(key, ms[i].key) && HasPrefix(ms[i].key, CommonPrefixOf(key, o).value)
  }

  /** The page's last entry is a common prefix that keys beyond the page still belong to. */
  predicate SplitsGroup(ms: seq<ObjectMeta>, o: ListOptions)
  {
    Truncated(ms, o) && Straddles(ms, o, NextMarker(ms, o))
  }

  function Splits(ms: seq<ObjectMeta>, requests: seq<ListOptions>): nat
  {
    if requests == [] then 0 else (if SplitsGroup(ms, requests[0]) then 1 else 0) + Splits(ms, requests[1..])
  }

  /** A page splits a group exactly when the first key of the next page repeats its last entry. */
  lemma SplitMeansRepeat(ms: seq<ObjectMeta>, o: ListOptions, t: nat)
    requires Listable(ms, o) && Progresses(ms, o) && Truncated(ms, o)
    requires var beyond := Beyond(ms, o.marker);
             t + 1 < |beyond| && beyond[t].key == NextMarker(ms, o)
    ensures var beyond := Beyond(ms, o.marker);
            SplitsGroup(ms, o) <==> Label(beyond[t], o) == Label(beyond[t + 1], o)
  {
    var c := BeyondIsSuffix(ms, o.marker);
    InSuffix(ms, c, Beyond(ms, o.marker), t);
    InSuffix(ms, c, Beyond(ms, o.marker), t + 1);
    SplitIsRepeat(ms, o, c + t);
  }

  lemma SplitIsRepeat(ms: seq<ObjectMeta>, o: ListOptions, k: nat)
    requires Listable(ms, o) && Truncated(ms, o) && k + 1 < |ms| && ms[k].key == NextMarker(ms, o)
    ensures SplitsGroup(ms, o) <==> Label(ms[k], o) == Label(ms[k + 1], o)
  {
    if CommonPrefixOf(ms[k].key, o).Some? {
      SplitShows(ms, o, k);
    } else {
      InOrder(ms, k, k + 1);
      LessIrreflexive(ms[k].key);
    }
  }

  lemma SplitShows(ms: seq<ObjectMeta>, o: ListOptions, k: nat)
    requires Listable(ms, o) && Truncated(ms, o) && k + 1 < |ms| && ms[k].key == NextMarker(ms, o)
    requires CommonPrefixOf(ms[k].key, o).Some?
    ensures SplitsGroup(ms, o) <==> CommonPrefixOf(ms[k + 1].key, o) == CommonPrefixOf(ms[k].key, o)
  {
    GroupIsItsPrefix(ms[k].key, ms[k + 1].key, o);
    InOrder(ms, k, k + 1);
    if SplitsGroup(ms, o) {
      var i :| 0 <= i < |ms| && Less(ms[k].key, ms[i].key) && HasPrefix(ms[i].key, CommonPrefixOf(ms[k].key, o).value);
      GroupIsItsPrefix(ms[k].key, ms[i].key, o);
      LaterIndex(ms, k, i);
      GroupsAreContiguous(ms, o, k, k + 1, i);
    }
  }

  lemma LaterIndex(ms: seq<ObjectMeta>, k: nat, i: nat)
    requires Ascending(ms) && k < |ms| && i < |ms| && Less(ms[k].key, ms[i].key)
    ensures k < i
  {
    if i == k {
      LessIrreflexive(ms[k].key);
    } else if i < k {
      InOrder(ms, i, k);
      LessAsymmetric(ms[k].key, ms[i].key);
    }
  }

  /** The number of entries a walk returns in excess is the number of groups its pages split. */
  lemma {:induction false} WalkLength(ms: seq<ObjectMeta>, o: ListOptions)
    requires Listable(ms, o) && Progresses(ms, o)
    ensures |EntriesOver(ms, Walk(ms, o))| == |Reference(ms, o)| + Splits(ms, Walk(ms, o))
    decreases |Beyond(ms, o.marker)|
  {
    ItemsOfLabels(Reference(ms, o), o);
    if Truncated(ms, o) {
      var next := o.(marker := NextMarker(ms, o));
      NextPageIsShorter(ms, o);
      WalkLength(ms, next);
      WalkUnfolds(ms, o);
      assert ([o] + Walk(ms, next))[1..] == Walk(ms, next);
      SeamLength(ms, o);
    } else {
      SinglePage(ms, o);
    }
  }

  lemma SeamLength(ms: seq<ObjectMeta>, o: ListOptions)
    requires Listable(ms, o) && Progresses(ms, o) && Truncated(ms, o)
    ensures |PageEntries(ms, o)| + |Reference(ms, o.(marker := NextMarker(ms, o)))| ==
            |Reference(ms, o)| + if SplitsGroup(ms, o) then 1 else 0
  {
    var next := o.(marker := NextMarker(ms, o));
    var t := PageIsCollapsedHead(ms, o);
    var beyond := Beyond(ms, o.marker);
    var head, tail := Labels(beyond[..t + 1], o), Labels(beyond[t + 1..], o);
    ReferenceEntries(ms, o);
    ReferenceEntries(ms, next);
    SameLabels(beyond[t + 1..], o, next);
    ItemsOfLabels(Reference(ms, o), o);
    ItemsOfLabels(Reference(ms, next), next);
    SeamEnds(beyond, o, t + 1);
    SeamCount(head, tail);
    SplitMeansRepeat(ms, o, t);
  }

  lemma SeamEnds(ms: seq<ObjectMeta>, o: ListOptions, n: nat)
    requires 0 < n < |ms|
    ensures var head, tail := Labels(ms[..n], o), Labels(ms[n..], o);
            && head != [] && head[|head| - 1] == Label(ms[n - 1], o)
            && tail != [] && tail[0] == Label(ms[n], o)
  {
    LabelsAt(ms[..n], o);
    LabelsAt(ms[n..], o);
  }

  /** Collapsing two halves apart counts an element twice if they meet in equal ones. */
  lemma SeamCount<T>(head: seq<T>, tail: seq<T>)
    requires head != [] && tail != []
    ensures |Collapse(head)| + |Collapse(tail)| ==
            |Collapse(head + tail)| + if head[|head| - 1] == tail[0] then 1 else 0
  {
    CollapseSeam(head, tail);
    CollapseHead(tail);
  }

  lemma ExactIffNoSplit(ms: seq<ObjectMeta>, o: ListOptions)
    requires Listable(ms, o) && Progresses(ms, o)
    ensures EntriesOver(ms, Walk(ms, o)) == Labels(Reference(ms, o), o) <==> Splits(ms, Walk(ms, o)) == 0
  {
    WalkLength(ms, o);
    ItemsOfLabels(Reference(ms, o), o);
    WalkCoversReference(ms, o);
    CollapseShortens(EntriesOver(ms, Walk(ms, o)));
  }
}
