/** Which walks return every entry exactly once, and how little keeps the others from it. */
module ExactWalks {
  import opened Types
  import opened Listing
  import opened Grouping
  import opened Walking

  // ----- the exact condition -----

  /** The entry just before place `end` of the listing is not a common prefix with keys still to come. */
  predicate CleanBefore(ms: seq<ObjectMeta>, o: ListOptions, end: int)
  {
    0 < end < |Reference(ms, o)| ==> !Straddles(ms, o, Reference(ms, o)[end - 1].key)
  }

  /** So it is where the `k`-th full page would end. */
  predicate CleanAt(ms: seq<ObjectMeta>, o: ListOptions, k: nat)
  {
    CleanBefore(ms, o, k * EffectiveMax(o))
  }

  /** No multiple of the page size cuts a group of the listing. */
  ghost predicate NoCut(ms: seq<ObjectMeta>, o: ListOptions)
  {
    forall k: nat :: k >= 1 ==> CleanAt(ms, o, k)
  }

  /** Where no group straddles the seam, leaders are found on either side of it separately. */
  lemma {:induction false} LeadersOfConcat(a: seq<ObjectMeta>, b: seq<ObjectMeta>, o: ListOptions)
    requires PrefixSet(a, o) !! PrefixSet(b, o)
    ensures Leaders(a + b, o) == Leaders(a, o) + Leaders(b, o)
  {
    if b == [] {
      assert a + b == a;
    } else {
      var init, last := b[..|b| - 1], b[|b| - 1];
      assert a + b == (a + init) + [last] && b == init + [last];
      PrefixSetGrows(init, last, o);
      LeadersOfConcat(a, init, o);
      LeadersStep(a + init, last, o);
      LeadersStep(init, last, o);
      SeenOnRight(a, init, last, o);
    }
  }

  lemma PrefixSetGrows(ms: seq<ObjectMeta>, m: ObjectMeta, o: ListOptions)
    ensures PrefixSet(ms, o) <= PrefixSet(ms + [m], o)
    ensures CommonPrefixOf(m.key, o).Some? ==> CommonPrefixOf(m.key, o).value in PrefixSet(ms + [m], o)
  {
    EntryStep(ms, m, o);
  }

  lemma SeenOnRight(a: seq<ObjectMeta>, init: seq<ObjectMeta>, last: ObjectMeta, o: ListOptions)
    requires PrefixSet(a, o) !! PrefixSet(init + [last], o)
    ensures var group := CommonPrefixOf(last.key, o);
            group.Some? ==> (group.value in PrefixSet(Leaders(a + init, o), o) <==>
              group.value in PrefixSet(Leaders(init, o), o))
  {
    LeadersLoseNothing(a + init, o);
    LeadersLoseNothing(init, o);
    PrefixSetOfConcat(a, init, o);
    PrefixSetGrows(init, last, o);
  }

  lemma {:induction false} PrefixSetOfConcat(a: seq<ObjectMeta>, b: seq<ObjectMeta>, o: ListOptions)
    ensures PrefixSet(a + b, o) == PrefixSet(a, o) + PrefixSet(b, o)
  {
    if b == [] {
      assert a + b == a;
    } else {
      var init, last := b[..|b| - 1], b[|b| - 1];
      assert a + b == (a + init) + [last] && b == init + [last];
      PrefixSetOfConcat(a, init, o);
      EntryStep(a + init, last, o);
      EntryStep(init, last, o);
    }
  }

  lemma {:induction false} SameLeaders(ms: seq<ObjectMeta>, o: ListOptions, o': ListOptions)
    requires o' == o.(marker := o'.marker)
    ensures Leaders(ms, o) == Leaders(ms, o')
  {
    if ms != [] {
      SameLeaders(ms[..|ms| - 1], o, o');
      SameLabels(Leaders(ms[..|ms| - 1], o), o, o');
    }
  }

  lemma MemberOfGroup(ms: seq<ObjectMeta>, o: ListOptions, lo: nat, hi: nat, p: string) returns (i: nat)
    requires lo <= hi <= |ms| && p in PrefixSet(ms[lo..hi], o)
    ensures lo <= i < hi && CommonPrefixOf(ms[i].key, o) == Some(p)
  {
    PrefixSetMember(ms[lo..hi], o, p);
    var j :| 0 <= j < hi - lo && CommonPrefixOf(ms[lo..hi][j].key, o) == Some(p);
    i := lo + j;
  }

  lemma GroupSpansSeam(ms: seq<ObjectMeta>, o: ListOptions, n: nat, i: nat, j: nat)
    requires Listable(ms, o) && i < n <= j < |ms|
    requires CommonPrefixOf(ms[i].key, o).Some? && CommonPrefixOf(ms[j].key, o) == CommonPrefixOf(ms[i].key, o)
    ensures Label(ms[n - 1], o) == Label(ms[n], o)
  {
    GroupsAreContiguous(ms, o, i, n - 1, j);
    GroupsAreContiguous(ms, o, i, n, j);
  }

  /** Neighbours with different labels have no group in common on their two sides. */
  lemma NoSharedGroup(ms: seq<ObjectMeta>, o: ListOptions, n: nat)
    requires Listable(ms, o) && 0 < n < |ms| && Label(ms[n - 1], o) != Label(ms[n], o)
    ensures PrefixSet(ms[..n], o) !! PrefixSet(ms[n..], o)
  {
    assert ms[..n] == ms[0..n] && ms[n..] == ms[n..|ms|];
    forall p | p in PrefixSet(ms[..n], o)
      ensures p !in PrefixSet(ms[n..], o)
    {
      if p in PrefixSet(ms[n..], o) {
        var i := MemberOfGroup(ms, o, 0, n, p);
        var j := MemberOfGroup(ms, o, n, |ms|, p);
        GroupSpansSeam(ms, o, n, i, j);
      }
    }
  }

  /** Between neighbours with different labels the entries fall apart. */
  lemma LeadersFallApart(ms: seq<ObjectMeta>, o: ListOptions, n: nat)
    requires Listable(ms, o) && 0 < n < |ms| && Label(ms[n - 1], o) != Label(ms[n], o)
    ensures Leaders(ms, o) == Leaders(ms[..n], o) + Leaders(ms[n..], o)
  {
    NoSharedGroup(ms, o, n);
    LeadersOfConcat(ms[..n], ms[n..], o);
    assert ms == ms[..n] + ms[n..];
  }

  lemma DropLeft<T>(a: seq<T>, b: seq<T>, n: nat)
    requires |a| == n
    ensures (a + b)[n..] == b
  {
  }

  /** After a page that splits no group, the rest of the listing is the listing of the rest. */
  lemma ReferenceGoesOn(ms: seq<ObjectMeta>, o: ListOptions)
    requires Listable(ms, o) && Progresses(ms, o) && Truncated(ms, o) && !SplitsGroup(ms, o)
    ensures Reference(ms, o.(marker := NextMarker(ms, o))) == Reference(ms, o)[EffectiveMax(o)..]
  {
    var next := o.(marker := NextMarker(ms, o));
    var t := CutPoint(ms, o);
    var beyond := Beyond(ms, o.marker);
    SplitMeansRepeat(ms, o, t);
    LeadersFallApart(beyond, o, t + 1);
    SameLeaders(beyond[t + 1..], o, next);
    DropLeft(PageLeaders(ms, o), Leaders(beyond[t + 1..], o), EffectiveMax(o));
  }

  lemma Multiples(k: nat, max: nat)
    ensures (k + 1) * max == k * max + max && k * max >= 0 && (k >= 1 ==> k * max >= max)
  {
  }

  lemma SamePlace(ms: seq<ObjectMeta>, o: ListOptions, next: ListOptions, end: int)
    requires next == o.(marker := next.marker) && end >= 1
    requires |Reference(ms, o)| > EffectiveMax(o) && Reference(ms, next) == Reference(ms, o)[EffectiveMax(o)..]
    ensures CleanBefore(ms, next, end) <==> CleanBefore(ms, o, end + EffectiveMax(o))
  {
    if end < |Reference(ms, next)| {
      SameStraddling(ms, o, next, Reference(ms, next)[end - 1].key);
    }
  }

  lemma SamePlaces(ms: seq<ObjectMeta>, o: ListOptions, next: ListOptions, k: nat)
    requires next == o.(marker := next.marker) && k >= 1
    requires |Reference(ms, o)| > EffectiveMax(o) && Reference(ms, next) == Reference(ms, o)[EffectiveMax(o)..]
    ensures CleanAt(ms, next, k) <==> CleanAt(ms, o, k + 1)
  {
    Multiples(k, EffectiveMax(o));
    SamePlace(ms, o, next, k * EffectiveMax(o));
  }

  lemma SameStraddling(ms: seq<ObjectMeta>, o: ListOptions, o': ListOptions, key: string)
    requires o' == o.(marker := o'.marker)
    ensures Straddles(ms, o, key) <==> Straddles(ms, o', key)
  {
  }

  lemma FirstPlace(ms: seq<ObjectMeta>, o: ListOptions)
    requires Truncated(ms, o)
    ensures CleanAt(ms, o, 1) <==> !SplitsGroup(ms, o)
  {
    Multiples(0, EffectiveMax(o));
    assert CleanBefore(ms, o, EffectiveMax(o)) <==> !SplitsGroup(ms, o);
  }

  lemma NoCutStep(ms: seq<ObjectMeta>, o: ListOptions)
    requires Listable(ms, o) && Progresses(ms, o) && Truncated(ms, o)
    ensures NoCut(ms, o) <==> !SplitsGroup(ms, o) && NoCut(ms, o.(marker := NextMarker(ms, o)))
  {
    FirstPlace(ms, o);
    if !SplitsGroup(ms, o) {
      ReferenceGoesOn(ms, o);
      NoCutShifts(ms, o, o.(marker := NextMarker(ms, o)));
    }
  }

  lemma NoCutShifts(ms: seq<ObjectMeta>, o: ListOptions, next: ListOptions)
    requires next == o.(marker := next.marker) && CleanAt(ms, o, 1)
    requires |Reference(ms, o)| > EffectiveMax(o) && Reference(ms, next) == Reference(ms, o)[EffectiveMax(o)..]
    ensures NoCut(ms, o) <==> NoCut(ms, next)
  {
    forall k: nat | k >= 1
      ensures CleanAt(ms, next, k) <==> CleanAt(ms, o, k + 1)
    {
      SamePlaces(ms, o, next, k);
    }
    assert forall k: nat :: k >= 2 ==> (CleanAt(ms, o, k) <==> CleanAt(ms, next, k - 1));
  }

  lemma NoCutOnOnePage(ms: seq<ObjectMeta>, o: ListOptions)
    requires !Truncated(ms, o)
    ensures NoCut(ms, o)
  {
    forall k: nat | k >= 1
      ensures CleanAt(ms, o, k)
    {
      Multiples(k, EffectiveMax(o));
    }
  }

  lemma {:induction false} SplitsIffCut(ms: seq<ObjectMeta>, o: ListOptions)
    requires Listable(ms, o) && Progresses(ms, o)
    ensures Splits(ms, Walk(ms, o)) == 0 <==> NoCut(ms, o)
    decreases |Beyond(ms, o.marker)|
  {
    if Truncated(ms, o) {
      var next := o.(marker := NextMarker(ms, o));
      NextPageIsShorter(ms, o);
      SplitsIffCut(ms, next);
      WalkUnfolds(ms, o);
      assert ([o] + Walk(ms, next))[1..] == Walk(ms, next);
      NoCutStep(ms, o);
    } else {
      SinglePage(ms, o);
      NoCutOnOnePage(ms, o);
    }
  }

  /** A walk returns exactly the listing, every entry once, if and only if no multiple of the page size falls inside a
      group: counting the listing's entries off in pages, no full page ends in a common prefix with later keys. */
  lemma WalkIsExactIffNoCut(ms: seq<ObjectMeta>, o: ListOptions)
    requires Listable(ms, o) && Progresses(ms, o)
    ensures EntriesOver(ms, Walk(ms, o)) == Labels(Reference(ms, o), o) <==> NoCut(ms, o)
  {
    ExactIffNoSplit(ms, o);
    SplitsIffCut(ms, o);
  }

  // ----- what would restore exactness -----

  /** The keys a page accounts for: the longest stretch from the start with at most `n` entries, keys skipped as already
      seen included. */
  function Absorbed(ms: seq<ObjectMeta>, o: ListOptions, n: nat): seq<ObjectMeta>
  {
    if |Leaders(ms, o)| <= n || ms == [] then ms else Absorbed(ms[..|ms| - 1], o, n)
  }

  /** The first `k` keys have the first `n` leaders, and the next key is the next leader. */
  predicate EndsAt(ms: seq<ObjectMeta>, o: ListOptions, n: nat, k: nat)
    requires n <= |Leaders(ms, o)|
  {
    && 0 < k < |ms| && Leaders(ms[..k], o) == Leaders(ms, o)[..n]
    && Leaders(ms[..k + 1], o) == Leaders(ms[..k], o) + [ms[k]]
  }

  lemma {:induction false} AbsorbedEnds(ms: seq<ObjectMeta>, o: ListOptions, n: nat)
    requires 1 <= n < |Leaders(ms, o)|
    ensures var a := Absorbed(ms, o, n);
            |a| <= |ms| && a == ms[..|a|] && EndsAt(ms, o, n, |a|)
  {
    var short := ms[..|ms| - 1];
    AbsorbedStep(ms, o, n);
    if n < |Leaders(short, o)| {
      AbsorbedEnds(short, o, n);
      var k := |Absorbed(short, o, n)|;
      SameStart(short, ms, k - 1);
      EndsEarlier(ms, o, n, k);
    } else {
      EndsBeforeLast(ms, o, n);
    }
  }

  lemma EndsEarlier(ms: seq<ObjectMeta>, o: ListOptions, n: nat, k: nat)
    requires ms != [] && 1 <= n <= |Leaders(ms[..|ms| - 1], o)| && EndsAt(ms[..|ms| - 1], o, n, k)
    ensures n <= |Leaders(ms, o)| && EndsAt(ms, o, n, k)
  {
    var short := ms[..|ms| - 1];
    LeadersOneMore(ms, o);
    SameStart(short, ms, k - 1);
    SameStart(short, ms, k);
    SameStart(Leaders(short, o), Leaders(ms, o), n - 1);
  }

  lemma EndsBeforeLast(ms: seq<ObjectMeta>, o: ListOptions, n: nat)
    requires ms != [] && |Leaders(ms[..|ms| - 1], o)| <= n && 1 <= n < |Leaders(ms, o)|
    ensures EndsAt(ms, o, n, |ms| - 1)
  {
    var short := ms[..|ms| - 1];
    var all, rest := Leaders(ms, o), Leaders(short, o);
    LeadersOneMore(ms, o);
    LeadersShrink(short, o);
    SameStart(rest, all, n - 1);
    TakeAll(rest);
    TakeAll(ms);
  }

  lemma AbsorbedStep(ms: seq<ObjectMeta>, o: ListOptions, n: nat)
    requires n < |Leaders(ms, o)|
    ensures var short := ms[..|ms| - 1];
            && Absorbed(ms, o, n) == Absorbed(short, o, n)
            && (|Leaders(short, o)| <= n ==> Absorbed(short, o, n) == short)
  {
  }

  /** The marker if the loop moved it over the keys it skips as already seen. */
  function AdvancedMarker(ms: seq<ObjectMeta>, o: ListOptions): string
    requires Truncated(ms, o)
  {
    var read := Absorbed(Beyond(ms, o.marker), o, EffectiveMax(o));
    if read == [] then "" else read[|read| - 1].key
  }

  lemma AdvancedCut(ms: seq<ObjectMeta>, o: ListOptions) returns (n: nat)
    requires Listable(ms, o) && Progresses(ms, o) && Truncated(ms, o)
    ensures var beyond := Beyond(ms, o.marker);
            && 0 < n < |beyond| && AdvancedMarker(ms, o) == beyond[n - 1].key && AdvancedMarker(ms, o) != ""
            && Beyond(ms, AdvancedMarker(ms, o)) == beyond[n..]
            && Leaders(beyond[..n], o) == PageLeaders(ms, o)
            && Leaders(beyond[..n + 1], o) == PageLeaders(ms, o) + [beyond[n]]
    ensures Listable(Beyond(ms, o.marker), o) && Progresses(ms, o.(marker := AdvancedMarker(ms, o)))
  {
    var beyond := Beyond(ms, o.marker);
    AbsorbedEnds(beyond, o, EffectiveMax(o));
    n := |Absorbed(beyond, o, EffectiveMax(o))|;
    AdvancedIsNotEmpty(ms, o, n);
    SuffixAfterKey(ms, o, n - 1);
  }

  lemma AdvancedIsNotEmpty(ms: seq<ObjectMeta>, o: ListOptions, n: nat)
    requires Listable(ms, o) && Progresses(ms, o) && Truncated(ms, o) && 0 < n < |Beyond(ms, o.marker)|
    requires Leaders(Beyond(ms, o.marker)[..n], o) == PageLeaders(ms, o)
    ensures Beyond(ms, o.marker)[n - 1].key != ""
  {
    var beyond := Beyond(ms, o.marker);
    var c := BeyondIsSuffix(ms, o.marker);
    InSuffix(ms, c, beyond, n - 1);
    assert LiesBeyond(ms, o.marker, c + n - 1);
    if beyond[n - 1].key == "" {
      EmptyKeyIsFirst(ms, c + n - 1);
      NothingBelowEmpty(o.marker);
      LeadersShrink(beyond[..n], o);
    }
  }

  /** The listing falls apart into the page and the listing beyond the advanced marker. */
  lemma AdvancedPage(ms: seq<ObjectMeta>, o: ListOptions)
    requires Listable(ms, o) && Progresses(ms, o) && Truncated(ms, o)
    ensures Reference(ms, o) == PageLeaders(ms, o) + Reference(ms, o.(marker := AdvancedMarker(ms, o)))
    ensures |Beyond(ms, AdvancedMarker(ms, o))| < |Beyond(ms, o.marker)|
    ensures Progresses(ms, o.(marker := AdvancedMarker(ms, o)))
  {
    var next := o.(marker := AdvancedMarker(ms, o));
    var beyond := Beyond(ms, o.marker);
    var n := AdvancedCut(ms, o);
    NewLeaderIsNew(beyond, o, n);
    LeadersFallApart(beyond, o, n);
    SameLeaders(beyond[n..], o, next);
  }

  lemma NewLeaderIsNew(ms: seq<ObjectMeta>, o: ListOptions, n: nat)
    requires Listable(ms, o) && 0 < n < |ms| && Leaders(ms[..n + 1], o) == Leaders(ms[..n], o) + [ms[n]]
    ensures Label(ms[n - 1], o) != Label(ms[n], o)
  {
    ListableInit(ms, o, n + 1);
    RepeatsPredecessor(ms[..n + 1], o);
    assert ms[..n + 1][..n] == ms[..n] && ms[..n + 1] == ms[..n] + [ms[n]];
    LeadersStep(ms[..n], ms[n], o);
  }

  function AdvancedWalk(ms: seq<ObjectMeta>, o: ListOptions): (requests: seq<ListOptions>)
    requires Listable(ms, o) && Progresses(ms, o)
    ensures requests != []
    decreases |Beyond(ms, o.marker)|
  {
    if Truncated(ms, o) then
      AdvancedPage(ms, o);
      [o] + AdvancedWalk(ms, o.(marker := AdvancedMarker(ms, o)))
    else [o]
  }

  /** With the marker moved over skipped keys, every walk would return every entry exactly once. */
  lemma {:induction false} AdvancedWalkIsExact(ms: seq<ObjectMeta>, o: ListOptions)
    requires Listable(ms, o) && Progresses(ms, o)
    ensures EntriesOver(ms, AdvancedWalk(ms, o)) == Labels(Reference(ms, o), o)
    decreases |Beyond(ms, o.marker)|
  {
    if Truncated(ms, o) {
      var next := o.(marker := AdvancedMarker(ms, o));
      AdvancedPage(ms, o);
      AdvancedWalkIsExact(ms, next);
      assert ([o] + AdvancedWalk(ms, next))[1..] == AdvancedWalk(ms, next);
      LabelsOfTwo(PageLeaders(ms, o), Reference(ms, next), o);
      SameLabels(Reference(ms, next), o, next);
    } else {
      assert [o][1..] == [];
      assert EntriesOver(ms, [o][1..]) == [];
    }
  }

  lemma LabelsOfTwo(a: seq<ObjectMeta>, b: seq<ObjectMeta>, o: ListOptions)
    ensures Labels(a + b, o) == Labels(a, o) + Labels(b, o)
  {
    LabelsSplit(a + b, o, |a|);
    assert (a + b)[..|a|] == a && (a + b)[|a|..] == b;
  }
}
