/** Walks without a delimiter, the inputs on which a walk is not exact, and walks over a changing bucket. */
module WalkLimits {
  import opened Types
  import opened ByteStrings
  import opened Listing
  import opened Grouping
  import opened Walking

  // ----- without a delimiter -----

  lemma {:induction false} NothingRolledUp(ms: seq<ObjectMeta>, o: ListOptions)
    requires o.delimiter == ""
    ensures Leaders(ms, o) == ms
  {
    if ms != [] {
      NothingRolledUp(ms[..|ms| - 1], o);
    }
  }

  lemma PlainCut(ms: seq<ObjectMeta>, o: ListOptions)
    requires o.delimiter == ""
    ensures Reference(ms, o) == Beyond(ms, o.marker)
    ensures Truncated(ms, o) <==> |Beyond(ms, o.marker)| > EffectiveMax(o)
  {
    NothingRolledUp(Beyond(ms, o.marker), o);
  }

  lemma PlainNext(ms: seq<ObjectMeta>, o: ListOptions)
    requires Listable(ms, o) && Progresses(ms, o) && o.delimiter == "" && Truncated(ms, o)
    ensures EffectiveMax(o) < |Beyond(ms, o.marker)|
    ensures Beyond(ms, NextMarker(ms, o)) == Beyond(ms, o.marker)[EffectiveMax(o)..]
  {
    PlainCut(ms, o);
    MarkerIsNotEmpty(ms, o);
    SuffixAfterKey(ms, o, EffectiveMax(o) - 1);
  }

  lemma PlainPage(ms: seq<ObjectMeta>, o: ListOptions)
    requires Listable(ms, o) && Progresses(ms, o) && o.delimiter == "" && Truncated(ms, o)
    ensures Labels(Beyond(ms, o.marker), o) ==
            PageEntries(ms, o) + Labels(Beyond(ms, NextMarker(ms, o)), o.(marker := NextMarker(ms, o)))
  {
    var beyond, next, max := Beyond(ms, o.marker), o.(marker := NextMarker(ms, o)), EffectiveMax(o);
    PlainNext(ms, o);
    PlainCut(ms, o);
    LabelsSplit(beyond, o, max);
    SameLabels(beyond[max..], o, next);
  }

  /** The least number of pages, at least one, with room for `n` keys. */
  predicate LeastPages(n: nat, pages: nat, max: nat)
  {
    n <= pages * max && (pages == 1 || (pages - 1) * max < n)
  }

  function PagesFor(n: nat, max: nat): (pages: nat)
    requires max >= 1
    ensures pages >= 1
  {
    if n <= max then 1 else 1 + PagesFor(n - max, max)
  }

  lemma {:induction false} PagesForIsLeast(n: nat, max: nat)
    requires max >= 1
    ensures LeastPages(n, PagesFor(n, max), max)
  {
    if n > max {
      PagesForIsLeast(n - max, max);
      var pages := PagesFor(n - max, max);
      assert (pages + 1) * max == pages * max + max && pages * max == (pages - 1) * max + max;
    }
  }

  lemma {:induction false} PlainWalkEntries(ms: seq<ObjectMeta>, o: ListOptions)
    requires Listable(ms, o) && Progresses(ms, o) && o.delimiter == ""
    ensures EntriesOver(ms, Walk(ms, o)) == Labels(Beyond(ms, o.marker), o)
    decreases |Beyond(ms, o.marker)|
  {
    if Truncated(ms, o) {
      NextPageIsShorter(ms, o);
      PlainPage(ms, o);
      WalkUnfolds(ms, o);
      PlainWalkEntries(ms, o.(marker := NextMarker(ms, o)));
    } else {
      NothingRolledUp(Beyond(ms, o.marker), o);
      SinglePage(ms, o);
    }
  }

  lemma PlainCounts(ms: seq<ObjectMeta>, o: ListOptions)
    requires Listable(ms, o) && Progresses(ms, o) && o.delimiter == "" && Truncated(ms, o)
    ensures var next := o.(marker := NextMarker(ms, o));
            && Progresses(ms, next) && |Walk(ms, o)| == 1 + |Walk(ms, next)|
            && |Beyond(ms, o.marker)| == |Beyond(ms, next.marker)| + EffectiveMax(o)
  {
    PlainNext(ms, o);
    WalkUnfolds(ms, o);
  }

  lemma {:induction false} PlainWalkLength(ms: seq<ObjectMeta>, o: ListOptions)
    requires Listable(ms, o) && Progresses(ms, o) && o.delimiter == ""
    ensures |Walk(ms, o)| == PagesFor(|Beyond(ms, o.marker)|, EffectiveMax(o))
    decreases |Beyond(ms, o.marker)|
  {
    PlainCut(ms, o);
    if Truncated(ms, o) {
      PlainCounts(ms, o);
      PlainWalkLength(ms, o.(marker := NextMarker(ms, o)));
      MorePages(|Beyond(ms, o.marker)|, EffectiveMax(o));
    } else {
      SinglePage(ms, o);
    }
  }

  lemma MorePages(n: nat, max: nat)
    requires n > max >= 1
    ensures PagesFor(n, max) == 1 + PagesFor(n - max, max)
  {
  }

  /** Without a delimiter a walk returns the matching keys in order, each exactly once, in as few pages as the
      limit allows: `n` keys take the least number of pages, at least one, that has room for them. */
  lemma PlainWalk(ms: seq<ObjectMeta>, o: ListOptions)
    requires Listable(ms, o) && Progresses(ms, o) && o.delimiter == ""
    ensures EntriesOver(ms, Walk(ms, o)) == Labels(Beyond(ms, o.marker), o)
    ensures LeastPages(|Beyond(ms, o.marker)|, |Walk(ms, o)|, EffectiveMax(o))
  {
    PlainWalkEntries(ms, o);
    PlainWalkLength(ms, o);
    PagesForIsLeast(|Beyond(ms, o.marker)|, EffectiveMax(o));
  }

  // ----- a walk that repeats a common prefix -----

  function Plain(key: string): ObjectMeta
  {
    ObjectMeta(key, "", 0, "", 0, map[])
  }

  const SLASHED := [Plain("a/1"), Plain("a/2"), Plain("b")]
  const ONE_BY_ONE := ListOptions("", "/", "", 1)

  lemma SlashedOrder()
    ensures Listable(SLASHED, ONE_BY_ONE) && Progresses(SLASHED, ONE_BY_ONE)
  {
    var a1, a2, b := "a/1", "a/2", "b";
    assert LessFrom(a1, a2, 2);
    assert LessFrom(a1, a2, 1);
    assert Less(a1, a2) && Less(a1, b) && Less(a2, b);
    assert a1[..0] == "" && a2[..0] == "" && b[..0] == "";
  }

  lemma SlashedGroups(key: string)
    requires |key| == 3 && key[0] != '/' && key[1] == '/'
    ensures CommonPrefixOf(key, ONE_BY_ONE) == Some(key[..2])
  {
    assert key[0..1] != "/" && key[1..2] == "/";
    assert IndexFrom(key, "/", 1) == 1;
    assert key[0..] == key && TrimPrefix(key, "") == key;
    assert "" + key[..2] == key[..2];
  }

  lemma UnslashedKey(key: string)
    requires |key| == 1 && key[0] != '/'
    ensures CommonPrefixOf(key, ONE_BY_ONE) == None
  {
    assert key[0..1] != "/";
    assert IndexFrom(key, "/", 1) == -1;
    assert key[0..] == key && TrimPrefix(key, "") == key;
  }

  lemma AllBeyond(x: ObjectMeta, y: ObjectMeta, z: ObjectMeta)
    ensures Beyond([x, y, z], "") == [x, y, z]
  {
    BeyondStep([], x, "");
    BeyondStep([x], y, "");
    BeyondStep([x, y], z, "");
    assert [] + [x] == [x] && [x] + [y] == [x, y] && [x, y] + [z] == [x, y, z];
  }

  lemma SecondFollowsFirst(x: ObjectMeta, y: ObjectMeta, z: ObjectMeta, o: ListOptions)
    requires CommonPrefixOf(x.key, o).Some? && CommonPrefixOf(y.key, o) == CommonPrefixOf(x.key, o)
             && CommonPrefixOf(z.key, o).None?
    ensures Leaders([x, y, z], o) == [x, z]
  {
    LeadersStep([], x, o);
    EntryStep([], x, o);
    assert [] + [x] == [x];
    LeadersStep([x], y, o);
    assert [x] + [y] == [x, y];
    LeadersStep([x, y], z, o);
    assert [x, y] + [z] == [x, y, z];
    assert [x] + [z] == [x, z];
  }

  lemma SlashedReference()
    ensures Reference(SLASHED, ONE_BY_ONE) == [SLASHED[0], SLASHED[2]]
  {
    AllBeyond(SLASHED[0], SLASHED[1], SLASHED[2]);
    SlashedGroups("a/1");
    SlashedGroups("a/2");
    UnslashedKey("b");
    assert "a/1"[..2] == "a/" == "a/2"[..2];
    SecondFollowsFirst(SLASHED[0], SLASHED[1], SLASHED[2], ONE_BY_ONE);
  }

  lemma TwoBeyond(x: ObjectMeta, y: ObjectMeta, z: ObjectMeta, marker: string)
    requires !After(x.key, marker) && After(z.key, marker)
    ensures Beyond([x, y, z], marker) == if After(y.key, marker) then [y, z] else [z]
  {
    BeyondStep([], x, marker);
    BeyondStep([x], y, marker);
    BeyondStep([x, y], z, marker);
    assert [] + [x] == [x] && [x] + [y] == [x, y] && [x, y] + [z] == [x, y, z] && [] + [y] == [y]
           && [y] + [z] == [y, z];
    assert [] + [z] == [z];
  }

  lemma PlainLast(y: ObjectMeta, z: ObjectMeta, o: ListOptions)
    requires CommonPrefixOf(z.key, o).None?
    ensures Leaders([y, z], o) == [y, z] && Leaders([z], o) == [z]
  {
    LeadersStep([], y, o);
    LeadersStep([y], z, o);
    LeadersStep([], z, o);
    assert [] + [y] == [y] && [y] + [z] == [y, z] && [] + [z] == [z];
  }

  lemma SlashedAfterFirst()
    ensures Reference(SLASHED, ONE_BY_ONE.(marker := "a/1")) == [SLASHED[1], SLASHED[2]]
  {
    SlashedOrder();
    InOrder(SLASHED, 0, 1);
    InOrder(SLASHED, 0, 2);
    LessIrreflexive("a/1");
    TwoBeyond(SLASHED[0], SLASHED[1], SLASHED[2], "a/1");
    UnslashedKey("b");
    PlainLast(SLASHED[1], SLASHED[2], ONE_BY_ONE.(marker := "a/1"));
  }

  lemma SlashedAfterSecond()
    ensures Reference(SLASHED, ONE_BY_ONE.(marker := "a/2")) == [SLASHED[2]]
  {
    SlashedOrder();
    InOrder(SLASHED, 0, 1);
    InOrder(SLASHED, 1, 2);
    LessIrreflexive("a/2");
    LessAsymmetric("a/1", "a/2");
    TwoBeyond(SLASHED[0], SLASHED[1], SLASHED[2], "a/2");
    UnslashedKey("b");
    PlainLast(SLASHED[1], SLASHED[2], ONE_BY_ONE.(marker := "a/2"));
  }

  lemma OneEntry(m: ObjectMeta, o: ListOptions)
    ensures Labels([m], o) == [Label(m, o)]
  {
    assert [m][..0] == [];
  }

  lemma SlashedLabels(o: ListOptions)
    requires o == ONE_BY_ONE.(marker := o.marker)
    ensures Label(SLASHED[0], o) == Group("a/") && Label(SLASHED[1], o) == Group("a/")
    ensures Label(SLASHED[2], o) == Item(Info(SLASHED[2]))
  {
    SlashedGroups("a/1");
    SlashedGroups("a/2");
    UnslashedKey("b");
    assert "a/1"[..2] == "a/" == "a/2"[..2];
  }

  /** A page of one entry, from the reference listing. */
  lemma FirstOfOne(ms: seq<ObjectMeta>, o: ListOptions, m: ObjectMeta)
    requires EffectiveMax(o) == 1 && Reference(ms, o) != [] && Reference(ms, o)[0] == m
    ensures Truncated(ms, o) <==> |Reference(ms, o)| > 1
    ensures PageEntries(ms, o) == [Label(m, o)]
    ensures Truncated(ms, o) ==> NextMarker(ms, o) == m.key
  {
    assert PageLeaders(ms, o) == [m];
    OneEntry(m, o);
  }

  lemma SlashedPages()
    ensures var o1, o2, o3 := ONE_BY_ONE, ONE_BY_ONE.(marker := "a/1"), ONE_BY_ONE.(marker := "a/2");
            && Truncated(SLASHED, o1) && NextMarker(SLASHED, o1) == "a/1" && PageEntries(SLASHED, o1) == [Group("a/")]
            && Truncated(SLASHED, o2) && NextMarker(SLASHED, o2) == "a/2" && PageEntries(SLASHED, o2) == [Group("a/")]
            && !Truncated(SLASHED, o3) && PageEntries(SLASHED, o3) == [Item(Info(SLASHED[2]))]
  {
    var o1, o2, o3 := ONE_BY_ONE, ONE_BY_ONE.(marker := "a/1"), ONE_BY_ONE.(marker := "a/2");
    SlashedReference();
    SlashedAfterFirst();
    SlashedAfterSecond();
    SlashedLabels(o1);
    SlashedLabels(o2);
    SlashedLabels(o3);
    FirstOfOne(SLASHED, o1, SLASHED[0]);
    FirstOfOne(SLASHED, o2, SLASHED[1]);
    FirstOfOne(SLASHED, o3, SLASHED[2]);
  }

  /** Two truncated pages and a last one. */
  lemma ThreePages(ms: seq<ObjectMeta>, o1: ListOptions, o2: ListOptions, o3: ListOptions)
    requires Listable(ms, o1) && Progresses(ms, o1)
    requires Truncated(ms, o1) && o2 == o1.(marker := NextMarker(ms, o1))
    requires Truncated(ms, o2) && o3 == o2.(marker := NextMarker(ms, o2)) && !Truncated(ms, o3)
    ensures EntriesOver(ms, Walk(ms, o1)) == PageEntries(ms, o1) + (PageEntries(ms, o2) + PageEntries(ms, o3))
  {
    WalkUnfolds(ms, o1);
    WalkUnfolds(ms, o2);
    SinglePage(ms, o3);
  }

  /** Exactly-once fails: on keys `a/1`, `a/2`, `b` with delimiter `/` and one entry a page, the first page ends at
      `a/1`, the second lists the common prefix `a/` again, and only the third gets to `b`. */
  lemma WalkCanRepeat()
    ensures Listable(SLASHED, ONE_BY_ONE) && Progresses(SLASHED, ONE_BY_ONE)
    ensures EntriesOver(SLASHED, Walk(SLASHED, ONE_BY_ONE)) == [Group("a/"), Group("a/"), Item(Info(SLASHED[2]))]
    ensures Labels(Reference(SLASHED, ONE_BY_ONE), ONE_BY_ONE) == [Group("a/"), Item(Info(SLASHED[2]))]
  {
    SlashedOrder();
    SlashedPages();
    ThreePages(SLASHED, ONE_BY_ONE, ONE_BY_ONE.(marker := "a/1"), ONE_BY_ONE.(marker := "a/2"));
    SlashedListing();
  }

  lemma SlashedListing()
    ensures Labels(Reference(SLASHED, ONE_BY_ONE), ONE_BY_ONE) == [Group("a/"), Item(Info(SLASHED[2]))]
  {
    SlashedReference();
    SlashedLabels(ONE_BY_ONE);
    OneEntry(SLASHED[0], ONE_BY_ONE);
    LabelsStep([SLASHED[0]], SLASHED[2], ONE_BY_ONE);
    assert [SLASHED[0]] + [SLASHED[2]] == [SLASHED[0], SLASHED[2]];
  }

  // ----- a walk that does not progress -----

  /** The `n`-th request of a client that follows next markers. */
  function RequestAt(ms: seq<ObjectMeta>, o: ListOptions, n: nat): ListOptions
    decreases n
  {
    if n == 0 || !Truncated(ms, o) then o else RequestAt(ms, o.(marker := NextMarker(ms, o)), n - 1)
  }

  lemma EmptyKeyIsNoGroup(o: ListOptions)
    ensures CommonPrefixOf("", o).None?
  {
  }

  lemma TwoLeaders(x: ObjectMeta, y: ObjectMeta, o: ListOptions)
    requires CommonPrefixOf(x.key, o).None?
    ensures Leaders([x, y], o) == [x, y]
  {
    LeadersStep([], x, o);
    EntryStep([], x, o);
    LeadersStep([x], y, o);
    assert [] + [x] == [x] && [x] + [y] == [x, y];
  }

  /** An empty key is never rolled up, so the key after it makes an entry of its own. */
  lemma EmptyKeyThenMore(ms: seq<ObjectMeta>, o: ListOptions)
    requires |ms| > 1 && ms[0].key == ""
    ensures |Leaders(ms, o)| > 1 && Leaders(ms, o)[0] == ms[0]
  {
    EmptyKeyIsNoGroup(o);
    TwoLeaders(ms[0], ms[1], o);
    assert ms[..2] == [ms[0], ms[1]];
    LeadersGrow(ms, 2, o);
  }

  lemma {:induction false} NothingSkipped(ms: seq<ObjectMeta>)
    ensures Beyond(ms, "") == ms
  {
    if ms != [] {
      NothingSkipped(ms[..|ms| - 1]);
    }
  }

  /** Exactly when a truncated page ends in the empty marker: a stored empty key fills the first page on its own. */
  lemma EmptyMarkerIffStall(ms: seq<ObjectMeta>, o: ListOptions)
    requires Listable(ms, o)
    ensures Truncated(ms, o) && NextMarker(ms, o) == "" <==> !Progresses(ms, o)
  {
    if !Progresses(ms, o) {
      NothingSkipped(ms);
      EmptyKeyThenMore(ms, o);
    } else if Truncated(ms, o) {
      MarkerIsNotEmpty(ms, o);
    }
  }

  lemma {:induction false} SameRequestForEver(ms: seq<ObjectMeta>, o: ListOptions, n: nat)
    requires Listable(ms, o) && !Progresses(ms, o)
    ensures RequestAt(ms, o, n) == o && Truncated(ms, o)
  {
    EmptyMarkerIffStall(ms, o);
    if n > 0 {
      SameRequestForEver(ms, o, n - 1);
    }
  }

  lemma {:induction false} LastRequest(ms: seq<ObjectMeta>, o: ListOptions)
    requires Listable(ms, o) && Progresses(ms, o)
    ensures RequestAt(ms, o, |Walk(ms, o)| - 1) == Walk(ms, o)[|Walk(ms, o)| - 1]
    decreases |Beyond(ms, o.marker)|
  {
    if Truncated(ms, o) {
      var next := o.(marker := NextMarker(ms, o));
      NextPageIsShorter(ms, o);
      LastRequest(ms, next);
      WalkUnfolds(ms, o);
      LastOfMore(o, Walk(ms, next));
      RequestStep(ms, o, |Walk(ms, next)| - 1);
    }
  }

  lemma LastOfMore<T>(x: T, s: seq<T>)
    requires s != []
    ensures ([x] + s)[|[x] + s| - 1] == s[|s| - 1] && |[x] + s| == |s| + 1
  {
  }

  lemma RequestStep(ms: seq<ObjectMeta>, o: ListOptions, n: nat)
    requires Truncated(ms, o)
    ensures RequestAt(ms, o, n + 1) == RequestAt(ms, o.(marker := NextMarker(ms, o)), n)
  {
  }

  /** A client that follows next markers reaches a last page if and only if no empty key stalls it at the first. */
  lemma WalkEndsIffProgresses(ms: seq<ObjectMeta>, o: ListOptions)
    requires Listable(ms, o)
    ensures (exists n :: !Truncated(ms, RequestAt(ms, o, n))) <==> Progresses(ms, o)
  {
    if Progresses(ms, o) {
      LastRequest(ms, o);
      WalkIsShort(ms, o);
    } else {
      forall n
        ensures Truncated(ms, RequestAt(ms, o, n))
      {
        SameRequestForEver(ms, o, n);
      }
    }
  }

  const WITH_EMPTY := [Plain(""), Plain("a")]

  /** On keys `` and `a` with one entry a page, the client sends its first request for ever and never sees `a`. */
  lemma WalkCanStall(n: nat)
    ensures var o := ListOptions("", "", "", 1);
            && Listable(WITH_EMPTY, o) && RequestAt(WITH_EMPTY, o, n) == o
            && Truncated(WITH_EMPTY, o) && Page(WITH_EMPTY, o).objects == [Info(Plain(""))]
  {
    var o, empty, a := ListOptions("", "", "", 1), "", "a";
    assert Less(empty, a) && empty[..0] == "" && a[..0] == "";
    SameRequestForEver(WITH_EMPTY, o, n);
    NothingSkipped(WITH_EMPTY);
    NothingRolledUp(WITH_EMPTY, o);
    assert PageLeaders(WITH_EMPTY, o) == [WITH_EMPTY[0]];
    assert [WITH_EMPTY[0]][..0] == [];
  }

  // ----- a bucket that changes between pages -----

  /** A completed walk whose pages see the successive bucket contents `states`. */
  ghost predicate ChurningWalk(states: seq<seq<ObjectMeta>>, o: ListOptions)
  {
    && states != []
    && Listable(states[0], o) && Progresses(states[0], o)
    && if |states| == 1 then !Truncated(states[0], o)
       else Truncated(states[0], o) && ChurningWalk(states[1..], o.(marker := NextMarker(states[0], o)))
  }

  /** The page accounts for the key: it lists it, or the common prefix it is rolled up into. */
  ghost predicate Covers(ms: seq<ObjectMeta>, o: ListOptions, key: string)
  {
    match CommonPrefixOf(key, o)
    case Some(p) => p in Page(ms, o).commonPrefixes
    case None => exists info :: info in Page(ms, o).objects && info.key == key
  }

  ghost function Coverings(states: seq<seq<ObjectMeta>>, o: ListOptions, key: string): nat
    requires ChurningWalk(states, o)
    decreases |states|
  {
    (if Covers(states[0], o, key) then 1 else 0) +
    if |states| == 1 then 0 else Coverings(states[1..], o.(marker := NextMarker(states[0], o)), key)
  }

  ghost predicate HasKey(ms: seq<ObjectMeta>, key: string)
  {
    exists i :: 0 <= i < |ms| && ms[i].key == key
  }

  lemma LaterIsAfter(ms: seq<ObjectMeta>, i: nat, j: nat)
    requires Ascending(ms) && i < |ms| && j < |ms|
    ensures i < j ==> After(ms[j].key, ms[i].key)
  {
    InOrder(ms, i, j);
  }

  /** The keys a page accounts for. */
  lemma PageHead(ms: seq<ObjectMeta>, o: ListOptions) returns (n: nat)
    requires Listable(ms, o) && Progresses(ms, o)
    ensures n <= |Beyond(ms, o.marker)| && PageLeaders(ms, o) == Leaders(Beyond(ms, o.marker)[..n], o)
    ensures Truncated(ms, o) ==> n > 0 && Beyond(ms, o.marker)[n - 1].key == NextMarker(ms, o)
    ensures !Truncated(ms, o) ==> n == |Beyond(ms, o.marker)|
  {
    if Truncated(ms, o) {
      var t := CutPoint(ms, o);
      n := t + 1;
    } else {
      n := |Beyond(ms, o.marker)|;
      TakeAll(Beyond(ms, o.marker));
    }
  }

  lemma KeyIsInHead(ms: seq<ObjectMeta>, o: ListOptions, n: nat, i: nat)
    requires Listable(ms, o) && n <= |Beyond(ms, o.marker)| && i < |ms| && After(ms[i].key, o.marker)
    requires n < |Beyond(ms, o.marker)| ==> n > 0 && !After(ms[i].key, Beyond(ms, o.marker)[n - 1].key)
    ensures ms[i] in Beyond(ms, o.marker)[..n]
  {
    var c := BeyondIsSuffix(ms, o.marker);
    assert LiesBeyond(ms, o.marker, i);
    if n < |Beyond(ms, o.marker)| {
      InSuffix(ms, c, Beyond(ms, o.marker), n - 1);
      LaterIsAfter(ms, c + n - 1, i);
    }
    assert Beyond(ms, o.marker)[..n][i - c] == ms[i];
  }

  /** A key no other page will reach is covered on this one. */
  lemma CoveredUpToCut(ms: seq<ObjectMeta>, o: ListOptions, key: string)
    requires Listable(ms, o) && Progresses(ms, o) && HasKey(ms, key) && After(key, o.marker)
    requires Truncated(ms, o) ==> !After(key, NextMarker(ms, o))
    ensures Covers(ms, o, key)
  {
    var i :| 0 <= i < |ms| && ms[i].key == key;
    var n := PageHead(ms, o);
    KeyIsInHead(ms, o, n, i);
    HeadCovers(Beyond(ms, o.marker)[..n], ms[i], o);
    if CommonPrefixOf(key, o).Some? {
      CommonPrefixesMember(PageLeaders(ms, o), o, CommonPrefixOf(key, o).value);
    }
  }

  lemma HeadCovers(head: seq<ObjectMeta>, m: ObjectMeta, o: ListOptions)
    requires m in head
    ensures CommonPrefixOf(m.key, o).Some? ==> CommonPrefixOf(m.key, o).value in PrefixSet(Leaders(head, o), o)
    ensures CommonPrefixOf(m.key, o).None? ==> Info(m) in Objects(Leaders(head, o), o)
  {
    LeadersLoseNothing(head, o);
    ObjectsMember(head, o, Info(m));
    if CommonPrefixOf(m.key, o).Some? {
      PrefixSetMember(head, o, CommonPrefixOf(m.key, o).value);
    }
  }

  /** The objects of a page lie beyond its marker and not beyond its next marker. */
  lemma ListedWithinPage(ms: seq<ObjectMeta>, o: ListOptions, info: ObjectInfo)
    requires Listable(ms, o) && Progresses(ms, o) && info in Page(ms, o).objects
    ensures After(info.key, o.marker)
    ensures Truncated(ms, o) ==> !After(info.key, NextMarker(ms, o))
  {
    var beyond := Beyond(ms, o.marker);
    var head := beyond;
    if Truncated(ms, o) {
      var t := CutPoint(ms, o);
      head := beyond[..t + 1];
      NextMarkerProgresses(ms, o);
      AscendingParts(beyond, t + 1);
      NotAfterLast(head);
    }
    LeadersLoseNothing(head, o);
    ObjectsMember(head, o, info);
    BeyondMembers(ms, o.marker);
  }

  lemma NotAfterLast(ms: seq<ObjectMeta>)
    requires Ascending(ms) && ms != [] && ms[|ms| - 1].key != ""
    ensures forall m :: m in ms ==> !After(m.key, ms[|ms| - 1].key)
  {
    var n := |ms| - 1;
    forall i | 0 <= i <= n
      ensures !After(ms[i].key, ms[n].key)
    {
      LessIrreflexive(ms[n].key);
      if i < n {
        InOrder(ms, i, n);
        LessAsymmetric(ms[i].key, ms[n].key);
      }
    }
  }

  lemma {:induction false} NotCoveredLater(states: seq<seq<ObjectMeta>>, o: ListOptions, key: string)
    requires ChurningWalk(states, o) && CommonPrefixOf(key, o).None? && !After(key, o.marker)
    ensures Coverings(states, o, key) == 0
    decreases |states|
  {
    if Covers(states[0], o, key) {
      var info :| info in Page(states[0], o).objects && info.key == key;
      ListedWithinPage(states[0], o, info);
    }
    if |states| > 1 {
      NextMarkerProgresses(states[0], o);
      LessTransitiveUnlessAfter(key, o.marker, NextMarker(states[0], o));
      NotCoveredLater(states[1..], o.(marker := NextMarker(states[0], o)), key);
    }
  }

  lemma LessTransitiveUnlessAfter(key: string, marker: string, next: string)
    requires !After(key, marker) && After(next, marker) && next != ""
    ensures !After(key, next)
  {
    if After(key, next) {
      LessTransitive(marker, next, key);
    }
  }

  /** Whatever is put and deleted between the pages, a key present at every page of a completed walk is covered,
      and, if it is not rolled up, returned exactly once. */
  lemma {:induction false} SurvivesChurn(states: seq<seq<ObjectMeta>>, o: ListOptions, key: string)
    requires ChurningWalk(states, o) && After(key, o.marker)
    requires forall i :: 0 <= i < |states| ==> HasKey(states[i], key)
    ensures Coverings(states, o, key) >= 1
    ensures CommonPrefixOf(key, o).None? ==> Coverings(states, o, key) == 1
    decreases |states|
  {
    if |states| == 1 {
      CoveredUpToCut(states[0], o, key);
    } else {
      var next := o.(marker := NextMarker(states[0], o));
      NextMarkerProgresses(states[0], o);
      if After(key, next.marker) {
        SurvivesChurn(states[1..], next, key);
        if CommonPrefixOf(key, o).None? && Covers(states[0], o, key) {
          var info :| info in Page(states[0], o).objects && info.key == key;
          ListedWithinPage(states[0], o, info);
        }
      } else {
        CoveredUpToCut(states[0], o, key);
        if CommonPrefixOf(key, o).None? {
          NotCoveredLater(states[1..], next, key);
        }
      }
    }
  }
}
