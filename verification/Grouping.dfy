/** Why rolling keys up with a seen-set is sound on sorted keys: a common prefix stands for exactly the keys
    that start with it, and those keys are neighbours. */
module Grouping {
  import opened Types
  import opened ByteStrings
  import opened Collapsing
  import opened Listing

  /** What one key contributes to a listing: itself, or the common prefix it is rolled up into. */
  datatype Entry = Item(info: ObjectInfo) | Group(prefix: string)

  function Label(m: ObjectMeta, o: ListOptions): Entry
  {
    match CommonPrefixOf(m.key, o)
    case Some(p) => Group(p)
    case None => Item(Info(m))
  }

  function Labels(ms: seq<ObjectMeta>, o: ListOptions): seq<Entry>
  {
    if ms == [] then [] else Labels(ms[..|ms| - 1], o) + [Label(ms[|ms| - 1], o)]
  }

  predicate AllHavePrefix(ms: seq<ObjectMeta>, prefix: string)
  {
    forall i :: 0 <= i < |ms| ==> HasPrefix(ms[i].key, prefix)
  }

  /** What `ListObjects` sorts: distinct keys that all have the requested prefix, in byte order. */
  predicate Listable(ms: seq<ObjectMeta>, o: ListOptions)
  {
    Ascending(ms) && AllHavePrefix(ms, o.prefix)
  }

  /** A key is rolled up if and only if the delimiter occurs beyond the prefix; its common prefix ends with the first
      such occurrence. */
  lemma RolledUpAtFirstDelimiter(key: string, o: ListOptions)
    requires HasPrefix(key, o.prefix)
    ensures var rest := key[|o.prefix|..];
            && (CommonPrefixOf(key, o).Some? <==> o.delimiter != "" && exists i :: OccursAt(rest, o.delimiter, i))
            && (CommonPrefixOf(key, o).Some? ==> exists i ::
                  && OccursAt(rest, o.delimiter, i) && (forall j :: OccursAt(rest, o.delimiter, j) ==> i <= j)
                  && CommonPrefixOf(key, o).value == o.prefix + rest[..i] + o.delimiter)
  {
    var rest := key[|o.prefix|..];
    FirstOccurrence(rest, o.delimiter);
    if CommonPrefixOf(key, o).Some? {
      PrefixToDelimiter(key, o, Index(rest, o.delimiter));
    }
  }

  lemma PrefixToDelimiter(key: string, o: ListOptions, i: int)
    requires HasPrefix(key, o.prefix) && o.delimiter != "" && i == Index(key[|o.prefix|..], o.delimiter) >= 0
    requires OccursAt(key[|o.prefix|..], o.delimiter, i)
    ensures CommonPrefixOf(key, o) == Some(o.prefix + key[|o.prefix|..][..i] + o.delimiter)
  {
    var rest := key[|o.prefix|..];
    assert rest[..i + |o.delimiter|] == rest[..i] + o.delimiter;
    assert o.prefix + (rest[..i] + o.delimiter) == o.prefix + rest[..i] + o.delimiter;
  }

  lemma FirstOccurrence(s: string, sub: string)
    ensures forall j :: OccursAt(s, sub, j) ==> 0 <= Index(s, sub) <= j
    ensures Index(s, sub) >= 0 ==> OccursAt(s, sub, Index(s, sub))
  {
    forall j | OccursAt(s, sub, j)
      ensures 0 <= Index(s, sub) <= j
    {
      IndexIsFirst(s, sub, 0, j);
    }
    if Index(s, sub) >= 0 {
      IndexOccurs(s, sub, 0);
    }
  }

  /** The keys rolled up into a common prefix are exactly the keys that start with it. */
  lemma GroupIsItsPrefix(j: string, k: string, o: ListOptions)
    requires HasPrefix(j, o.prefix) && CommonPrefixOf(j, o).Some?
    ensures HasPrefix(CommonPrefixOf(j, o).value, o.prefix) && HasPrefix(j, CommonPrefixOf(j, o).value)
    ensures HasPrefix(k, CommonPrefixOf(j, o).value) <==>
            HasPrefix(k, o.prefix) && CommonPrefixOf(k, o) == CommonPrefixOf(j, o)
  {
    var p := CommonPrefixOf(j, o).value;
    RolledUp(j, o);
    if HasPrefix(k, p) {
      SharedPrefixRollsUp(j, k, o);
    }
    if HasPrefix(k, o.prefix) && CommonPrefixOf(k, o) == CommonPrefixOf(j, o) {
      RolledUp(k, o);
    }
  }

  lemma RolledUp(j: string, o: ListOptions)
    requires HasPrefix(j, o.prefix) && CommonPrefixOf(j, o).Some?
    ensures HasPrefix(CommonPrefixOf(j, o).value, o.prefix) && HasPrefix(j, CommonPrefixOf(j, o).value)
  {
    var remainder := j[|o.prefix|..];
    var p := CommonPrefixOf(j, o).value;
    var n := Index(remainder, o.delimiter) + |o.delimiter|;
    assert j == o.prefix + remainder;
    assert p == o.prefix + remainder[..n];
    assert j[..|p|] == p;
    assert p[..|o.prefix|] == o.prefix;
  }

  /** The first delimiter lies inside the common prefix, so every key with that prefix finds the same one. */
  lemma SharedPrefixRollsUp(j: string, k: string, o: ListOptions)
    requires HasPrefix(j, o.prefix) && CommonPrefixOf(j, o).Some? && HasPrefix(k, CommonPrefixOf(j, o).value)
    ensures HasPrefix(k, o.prefix) && CommonPrefixOf(k, o) == CommonPrefixOf(j, o)
  {
    var p := CommonPrefixOf(j, o).value;
    RolledUp(j, o);
    assert k[..|o.prefix|] == k[..|p|][..|o.prefix|] == p[..|o.prefix|];
    var rj, rk := j[|o.prefix|..], k[|o.prefix|..];
    var n := Index(rj, o.delimiter) + |o.delimiter|;
    assert p == o.prefix + rj[..n];
    assert rk[..n] == k[..|p|][|o.prefix|..] == p[|o.prefix|..] == rj[..n];
    FirstOccurrenceIsStable(rj, rk, o.delimiter);
  }

  lemma FirstOccurrenceIsStable(a: string, b: string, sub: string)
    requires Index(a, sub) >= 0
    requires Index(a, sub) + |sub| <= |b| && a[..Index(a, sub) + |sub|] == b[..Index(a, sub) + |sub|]
    ensures Index(b, sub) == Index(a, sub)
  {
    var i := Index(a, sub);
    IndexOccurs(a, sub, 0);
    SameHead(a, b, sub, i);
    IndexIsFirst(b, sub, 0, i);
    var i' := Index(b, sub);
    IndexOccurs(b, sub, 0);
    assert a[..i' + |sub|] == a[..i + |sub|][..i' + |sub|] == b[..i' + |sub|];
    SameHead(b, a, sub, i');
    IndexIsFirst(a, sub, 0, i');
  }

  lemma SameHead(a: string, b: string, sub: string, i: nat)
    requires OccursAt(a, sub, i) && i + |sub| <= |b| && a[..i + |sub|] == b[..i + |sub|]
    ensures OccursAt(b, sub, i)
  {
    assert a[i..i + |sub|] == a[..i + |sub|][i..];
    assert b[i..i + |sub|] == b[..i + |sub|][i..];
  }

  /** Between two keys of a group there are only keys of that group. */
  lemma GroupsAreContiguous(ms: seq<ObjectMeta>, o: ListOptions, i: int, j: int, k: int)
    requires Listable(ms, o) && 0 <= i <= j <= k < |ms|
    requires CommonPrefixOf(ms[i].key, o).Some? && CommonPrefixOf(ms[i].key, o) == CommonPrefixOf(ms[k].key, o)
    ensures CommonPrefixOf(ms[j].key, o) == CommonPrefixOf(ms[i].key, o)
  {
    if i < j < k {
      InOrder(ms, i, j);
      InOrder(ms, j, k);
      GroupIsItsPrefix(ms[i].key, ms[k].key, o);
      PrefixIsConvex(ms[i].key, ms[j].key, ms[k].key, CommonPrefixOf(ms[i].key, o).value);
      GroupIsItsPrefix(ms[i].key, ms[j].key, o);
    }
  }

  lemma {:induction false} PrefixSetMember(ms: seq<ObjectMeta>, o: ListOptions, p: string)
    ensures p in PrefixSet(ms, o) <==> exists i :: 0 <= i < |ms| && CommonPrefixOf(ms[i].key, o) == Some(p)
  {
    if ms != [] {
      var short := ms[..|ms| - 1];
      PrefixSetMember(short, o, p);
      assert forall i :: 0 <= i < |short| ==> ms[i] == short[i];
    }
  }

  /** Dropping repeats loses no common prefix and no object. */
  lemma {:induction false} LeadersLoseNothing(ms: seq<ObjectMeta>, o: ListOptions)
    ensures PrefixSet(Leaders(ms, o), o) == PrefixSet(ms, o)
    ensures Objects(Leaders(ms, o), o) == Objects(ms, o)
  {
    if ms != [] {
      var short, last := ms[..|ms| - 1], ms[|ms| - 1];
      LeadersLoseNothing(short, o);
      EntryStep(Leaders(short, o), last, o);
    }
  }

  lemma ListableInit(ms: seq<ObjectMeta>, o: ListOptions, n: nat)
    requires Listable(ms, o) && n <= |ms|
    ensures Listable(ms[..n], o) && Listable(ms[n..], o)
  {
    AscendingParts(ms, n);
  }

  /** A key repeats an earlier entry exactly when it repeats its predecessor's. */
  lemma RepeatsPredecessor(ms: seq<ObjectMeta>, o: ListOptions)
    requires Listable(ms, o) && ms != []
    ensures var group := CommonPrefixOf(ms[|ms| - 1].key, o);
            var short := ms[..|ms| - 1];
            (group.Some? && group.value in PrefixSet(Leaders(short, o), o)) <==>
            (short != [] && Label(short[|short| - 1], o) == Label(ms[|ms| - 1], o))
  {
    var n := |ms| - 1;
    var short := ms[..n];
    var group := CommonPrefixOf(ms[n].key, o);
    LeadersLoseNothing(short, o);
    if group.Some? {
      PrefixSetMember(short, o, group.value);
      if group.value in PrefixSet(short, o) {
        var i :| 0 <= i < n && CommonPrefixOf(short[i].key, o) == group;
        assert short[i] == ms[i];
        GroupsAreContiguous(ms, o, i, n - 1, n);
      }
    } else if n > 0 {
      InOrder(ms, n - 1, n);
      LessAsymmetric(ms[n - 1].key, ms[n].key);
    }
  }

  /** The seen-set refines a comparison with the last entry: dropping repeats anywhere is dropping adjacent ones. */
  lemma {:induction false} SeenSetIsLastSeen(ms: seq<ObjectMeta>, o: ListOptions)
    requires Listable(ms, o)
    ensures Labels(Leaders(ms, o), o) == Collapse(Labels(ms, o))
  {
    if ms != [] {
      var short, last := ms[..|ms| - 1], ms[|ms| - 1];
      ListableInit(ms, o, |ms| - 1);
      SeenSetIsLastSeen(short, o);
      RepeatsPredecessor(ms, o);
      LabelsStep(Leaders(short, o), last, o);
      CollapseStep(Labels(short, o), Label(last, o));
      LabelsAt(short, o);
    }
  }

  lemma LabelsStep(ms: seq<ObjectMeta>, m: ObjectMeta, o: ListOptions)
    ensures Labels(ms + [m], o) == Labels(ms, o) + [Label(m, o)]
  {
    assert (ms + [m])[..|ms|] == ms;
  }

  lemma {:induction false} LabelsAt(ms: seq<ObjectMeta>, o: ListOptions)
    ensures |Labels(ms, o)| == |ms|
    ensures forall i :: 0 <= i < |ms| ==> Labels(ms, o)[i] == Label(ms[i], o)
  {
    if ms != [] {
      LabelsAt(ms[..|ms| - 1], o);
    }
  }

  lemma LabelsSplit(ms: seq<ObjectMeta>, o: ListOptions, n: nat)
    requires n <= |ms|
    ensures Labels(ms, o) == Labels(ms[..n], o) + Labels(ms[n..], o)
  {
    var left, right := ms[..n], ms[n..];
    var all, parts := Labels(ms, o), Labels(left, o) + Labels(right, o);
    LabelsAt(ms, o);
    LabelsAt(left, o);
    LabelsAt(right, o);
    assert |all| == |parts|;
    forall i | 0 <= i < |ms|
      ensures all[i] == parts[i]
    {
      if i < n {
        assert left[i] == ms[i];
      } else {
        assert right[i - n] == ms[i];
      }
    }
  }

  predicate StrictlyAscending(ps: seq<string>)
  {
    forall i, j :: 0 <= i < j < |ps| ==> Less(ps[i], ps[j])
  }

  /** The common prefixes of leaders come in byte order, so none is listed twice. */
  lemma {:induction false} CommonPrefixesAscend(ms: seq<ObjectMeta>, o: ListOptions)
    requires Listable(ms, o)
    ensures StrictlyAscending(CommonPrefixes(Leaders(ms, o), o))
  {
    if ms != [] {
      var short, last := ms[..|ms| - 1], ms[|ms| - 1];
      ListableInit(ms, o, |ms| - 1);
      CommonPrefixesAscend(short, o);
      EntryStep(Leaders(short, o), last, o);
      var group := CommonPrefixOf(last.key, o);
      if group.Some? && group.value !in PrefixSet(Leaders(short, o), o) {
        NewPrefixIsGreater(ms, o);
      }
    }
  }

  lemma NewPrefixIsGreater(ms: seq<ObjectMeta>, o: ListOptions)
    requires Listable(ms, o) && ms != [] && CommonPrefixOf(ms[|ms| - 1].key, o).Some?
    requires CommonPrefixOf(ms[|ms| - 1].key, o).value !in PrefixSet(Leaders(ms[..|ms| - 1], o), o)
    ensures var ps := CommonPrefixes(Leaders(ms[..|ms| - 1], o), o);
            forall i :: 0 <= i < |ps| ==> Less(ps[i], CommonPrefixOf(ms[|ms| - 1].key, o).value)
  {
    var short := ms[..|ms| - 1];
    var ps := CommonPrefixes(Leaders(short, o), o);
    LeadersLoseNothing(short, o);
    forall i | 0 <= i < |ps|
      ensures Less(ps[i], CommonPrefixOf(ms[|ms| - 1].key, o).value)
    {
      CommonPrefixesMember(Leaders(short, o), o, ps[i]);
      EarlierGroupIsLess(ms, o, ps[i]);
    }
  }

  lemma EarlierGroupIsLess(ms: seq<ObjectMeta>, o: ListOptions, p: string)
    requires Listable(ms, o) && ms != [] && CommonPrefixOf(ms[|ms| - 1].key, o).Some?
    requires p in PrefixSet(ms[..|ms| - 1], o) && p != CommonPrefixOf(ms[|ms| - 1].key, o).value
    ensures Less(p, CommonPrefixOf(ms[|ms| - 1].key, o).value)
  {
    var n := |ms| - 1;
    PrefixSetMember(ms[..n], o, p);
    var i :| 0 <= i < n && CommonPrefixOf(ms[..n][i].key, o) == Some(p);
    InOrder(ms, i, n);
    GroupIsItsPrefix(ms[i].key, ms[n].key, o);
    GroupIsItsPrefix(ms[n].key, ms[i].key, o);
    PrefixesOrder(ms[i].key, ms[n].key, p, CommonPrefixOf(ms[n].key, o).value);
  }

  lemma {:induction false} CommonPrefixesMember(ms: seq<ObjectMeta>, o: ListOptions, p: string)
    ensures p in CommonPrefixes(ms, o) <==> p in PrefixSet(ms, o)
  {
    if ms != [] {
      CommonPrefixesMember(ms[..|ms| - 1], o, p);
    }
  }

  lemma {:induction false} ObjectsMember(ms: seq<ObjectMeta>, o: ListOptions, info: ObjectInfo)
    ensures info in Objects(ms, o) <==> exists m :: m in ms && CommonPrefixOf(m.key, o).None? && Info(m) == info
  {
    if ms != [] {
      ObjectsMember(ms[..|ms| - 1], o, info);
      assert ms == ms[..|ms| - 1] + [ms[|ms| - 1]];
    }
  }

  lemma {:induction false} BeyondMembers(ms: seq<ObjectMeta>, marker: string)
    ensures forall m :: m in Beyond(ms, marker) <==> m in ms && After(m.key, marker)
  {
    if ms != [] {
      BeyondMembers(ms[..|ms| - 1], marker);
      assert ms == ms[..|ms| - 1] + [ms[|ms| - 1]];
    }
  }

  /** An untruncated page partitions the matching keys beyond the marker: each is listed as an object or starts
      with a listed common prefix, never both, and every listed common prefix is the start of such a key. */
  lemma UntruncatedPagePartitions(ms: seq<ObjectMeta>, o: ListOptions)
    requires Listable(ms, o) && !Truncated(ms, o)
    ensures var page := Page(ms, o);
            && (forall m :: m in ms && After(m.key, o.marker) ==>
                  (Info(m) in page.objects <==> !exists p :: p in page.commonPrefixes && HasPrefix(m.key, p)))
            && (forall p :: p in page.commonPrefixes ==>
                  exists m :: m in ms && After(m.key, o.marker) && HasPrefix(m.key, p))
            && (forall info :: info in page.objects ==>
                  exists m :: m in ms && After(m.key, o.marker) && Info(m) == info)
  {
    var beyond := Beyond(ms, o.marker);
    var page := Page(ms, o);
    LeadersLoseNothing(beyond, o);
    BeyondMembers(ms, o.marker);
    forall p
      ensures p in page.commonPrefixes <==> exists m :: m in beyond && CommonPrefixOf(m.key, o) == Some(p)
    {
      CommonPrefixesMember(Reference(ms, o), o, p);
      PrefixSetMember(beyond, o, p);
    }
    forall m | m in beyond
      ensures Info(m) in page.objects <==> !exists p :: p in page.commonPrefixes && HasPrefix(m.key, p)
    {
      ListedOnce(ms, o, m);
    }
    forall info | info in page.objects
      ensures exists m :: m in ms && After(m.key, o.marker) && Info(m) == info
    {
      ObjectsMember(beyond, o, info);
    }
    forall p | p in page.commonPrefixes
      ensures exists m :: m in ms && After(m.key, o.marker) && HasPrefix(m.key, p)
    {
      var m :| m in beyond && CommonPrefixOf(m.key, o) == Some(p);
      GroupIsItsPrefix(m.key, m.key, o);
    }
  }

  lemma ListedOnce(ms: seq<ObjectMeta>, o: ListOptions, m: ObjectMeta)
    requires Listable(ms, o) && !Truncated(ms, o) && m in ms && After(m.key, o.marker)
    ensures Info(m) in Page(ms, o).objects <==> !exists p :: p in Page(ms, o).commonPrefixes && HasPrefix(m.key, p)
  {
    var beyond := Beyond(ms, o.marker);
    BeyondMembers(ms, o.marker);
    LeadersLoseNothing(beyond, o);
    ObjectsMember(beyond, o, Info(m));
    if CommonPrefixOf(m.key, o).Some? {
      var p := CommonPrefixOf(m.key, o).value;
      GroupIsItsPrefix(m.key, m.key, o);
      CommonPrefixesMember(Reference(ms, o), o, p);
      PrefixSetMember(beyond, o, p);
    } else {
      forall p | p in Page(ms, o).commonPrefixes
        ensures !HasPrefix(m.key, p)
      {
        CommonPrefixesMember(Reference(ms, o), o, p);
        PrefixSetMember(beyond, o, p);
        var i :| 0 <= i < |beyond| && CommonPrefixOf(beyond[i].key, o) == Some(p);
        assert beyond[i] in ms;
        GroupIsItsPrefix(beyond[i].key, m.key, o);
      }
    }
  }
}
