/** One page of a bucket listing: the loop of `ListObjects` and what it computes. */
module Listing {
  import opened Types
  import opened ByteStrings

  const DEFAULT_MAX_KEYS := 1000

  function Info(m: ObjectMeta): ObjectInfo
  {
    ObjectInfo(m.key, m.contentLength, m.lastModified, m.etag)
  }

  /** The common prefix a key is rolled up into, if any. */
  function CommonPrefixOf(key: string, o: ListOptions): Option<string>
  {
    if o.delimiter == "" then None
    else
      var remainder := TrimPrefix(key, o.prefix);
      var index := Index(remainder, o.delimiter);
      if index >= 0 then Some(o.prefix + remainder[..index + |o.delimiter|]) else None
  }

  predicate After(key: string, marker: string)
  {
    marker == "" || Less(marker, key)
  }

  predicate Ascending(ms: seq<ObjectMeta>)
  {
    forall i, j {:trigger Precedes(ms, i, j)} :: 0 <= i < j < |ms| ==> Precedes(ms, i, j)
  }

  predicate Precedes(ms: seq<ObjectMeta>, i: int, j: int)
    requires 0 <= i < |ms| && 0 <= j < |ms|
  {
    Less(ms[i].key, ms[j].key)
  }

  lemma InOrder(ms: seq<ObjectMeta>, i: nat, j: nat)
    requires Ascending(ms) && i < |ms| && j < |ms|
    ensures i < j ==> Less(ms[i].key, ms[j].key)
  {
    assert i < j ==> Precedes(ms, i, j);
  }

  lemma AscendingParts(ms: seq<ObjectMeta>, n: nat)
    requires Ascending(ms) && n <= |ms|
    ensures Ascending(ms[..n]) && Ascending(ms[n..])
  {
    forall i, j | 0 <= i < j < n
      ensures Precedes(ms[..n], i, j)
    {
      InOrder(ms, i, j);
    }
    forall i, j | 0 <= i < j < |ms| - n
      ensures Precedes(ms[n..], i, j)
    {
      InOrder(ms, n + i, n + j);
    }
  }

  function EffectiveMax(o: ListOptions): (n: nat)
    ensures n >= 1
  {
    if o.maxKeys <= 0 then DEFAULT_MAX_KEYS else o.maxKeys
  }

  // ----- the reference listing: filter by marker, classify, drop repeats, cut -----

  /** The metadata beyond the marker, in the same order. */
  function Beyond(ms: seq<ObjectMeta>, marker: string): seq<ObjectMeta>
  {
    if ms == [] then []
    else
      var rest := Beyond(ms[..|ms| - 1], marker);
      if After(ms[|ms| - 1].key, marker) then rest + [ms[|ms| - 1]] else rest
  }

  /** The keys that contribute an entry: those not rolled up, and the first key of each common prefix. */
  function Leaders(ms: seq<ObjectMeta>, o: ListOptions): seq<ObjectMeta>
  {
    if ms == [] then []
    else
      var rest := Leaders(ms[..|ms| - 1], o);
      var last := ms[|ms| - 1];
      var group := CommonPrefixOf(last.key, o);
      if group.Some? && group.value in PrefixSet(rest, o) then rest else rest + [last]
  }

  function PrefixSet(ms: seq<ObjectMeta>, o: ListOptions): set<string>
  {
    if ms == [] then {}
    else
      var group := CommonPrefixOf(ms[|ms| - 1].key, o);
      if group.Some? then PrefixSet(ms[..|ms| - 1], o) + {group.value} else PrefixSet(ms[..|ms| - 1], o)
  }

  /** The objects among a page's leaders. */
  function Objects(ms: seq<ObjectMeta>, o: ListOptions): seq<ObjectInfo>
  {
    if ms == [] then []
    else
      var rest := Objects(ms[..|ms| - 1], o);
      if CommonPrefixOf(ms[|ms| - 1].key, o).None? then rest + [Info(ms[|ms| - 1])] else rest
  }

  /** The common prefixes among a page's leaders. */
  function CommonPrefixes(ms: seq<ObjectMeta>, o: ListOptions): seq<string>
  {
    if ms == [] then []
    else
      var rest := CommonPrefixes(ms[..|ms| - 1], o);
      var group := CommonPrefixOf(ms[|ms| - 1].key, o);
      if group.Some? then rest + [group.value] else rest
  }

  /** The leader of every entry beyond the marker: the listing without a limit. */
  function Reference(ms: seq<ObjectMeta>, o: ListOptions): seq<ObjectMeta>
  {
    Leaders(Beyond(ms, o.marker), o)
  }

  predicate Truncated(ms: seq<ObjectMeta>, o: ListOptions)
  {
    |Reference(ms, o)| > EffectiveMax(o)
  }

  function PageLeaders(ms: seq<ObjectMeta>, o: ListOptions): (r: seq<ObjectMeta>)
    ensures |r| <= EffectiveMax(o)
    ensures Truncated(ms, o) ==> |r| == EffectiveMax(o)
  {
    if Truncated(ms, o) then Reference(ms, o)[..EffectiveMax(o)] else Reference(ms, o)
  }

  function NextMarker(ms: seq<ObjectMeta>, o: ListOptions): string
    requires Truncated(ms, o)
  {
    PageLeaders(ms, o)[EffectiveMax(o) - 1].key
  }

  function Page(ms: seq<ObjectMeta>, o: ListOptions): ListResult
  {
    var leaders := PageLeaders(ms, o);
    ListResult(Objects(leaders, o), CommonPrefixes(leaders, o), Truncated(ms, o),
               if Truncated(ms, o) then NextMarker(ms, o) else "")
  }

  // ----- the loop -----

  /** What the loop of `ListObjects` has computed from its first `i` keys. */
  ghost predicate Scanned(ms: seq<ObjectMeta>, i: int, o: ListOptions, leaders: seq<ObjectMeta>,
                          objects: seq<ObjectInfo>, commonPrefixes: seq<string>, seen: set<string>)
  {
    && 0 <= i <= |ms|
    && leaders == Leaders(Beyond(ms[..i], o.marker), o)
    && |leaders| <= EffectiveMax(o)
    && objects == Objects(leaders, o)
    && commonPrefixes == CommonPrefixes(leaders, o)
    && seen == PrefixSet(leaders, o)
  }

  /** The loop's test for a delimiter beyond the prefix. */
  method RollUp(key: string, options: ListOptions) returns (group: Option<string>)
    ensures group == CommonPrefixOf(key, options)
  {
    if options.delimiter != "" {
      var remainder := TrimPrefix(key, options.prefix);
      var index := Index(remainder, options.delimiter);
      if index >= 0 {
        return Some(options.prefix + remainder[..index + |options.delimiter|]);
      }
    }
    return None;
  }

  /** The loop of `ListObjects` over its sorted metadata. */
  method ListSorted(metadata: seq<ObjectMeta>, options: ListOptions) returns (result: ListResult)
    ensures result == Page(metadata, options)
  {
    var maxKeys := options.maxKeys;
    if maxKeys <= 0 {
      maxKeys := DEFAULT_MAX_KEYS;
    }
    var objects: seq<ObjectInfo>, commonPrefixes: seq<string>, isTruncated := [], [], false;
    var seenPrefixes: set<string> := {};
    var lastKey := "";
    var count := 0;
    ghost var leaders: seq<ObjectMeta> := [];
    NothingScanned(metadata, options);
    var i := 0;
    while i < |metadata|
      invariant Scanned(metadata, i, options, leaders, objects, commonPrefixes, seenPrefixes)
      invariant count == |leaders| && maxKeys == EffectiveMax(options) && !isTruncated
      invariant lastKey == if leaders == [] then "" else leaders[|leaders| - 1].key
      decreases |metadata| - i
    {
      var meta := metadata[i];
      i := i + 1;
      if options.marker != "" && !Less(options.marker, meta.key) {
        Skip(metadata, i, options, leaders, objects, commonPrefixes, seenPrefixes);
        continue;
      }
      var group := RollUp(meta.key, options);
      if group.Some? && group.value in seenPrefixes {
        Skip(metadata, i, options, leaders, objects, commonPrefixes, seenPrefixes);
        continue;
      }
      if count == maxKeys {
        CutPage(metadata, i, options, leaders, objects, commonPrefixes, seenPrefixes);
        isTruncated := true;
        break;
      }
      if group.Some? {
        EmitPrefix(metadata, i, options, leaders, objects, commonPrefixes, seenPrefixes);
        seenPrefixes := seenPrefixes + {group.value};
        commonPrefixes := commonPrefixes + [group.value];
      } else {
        EmitObject(metadata, i, options, leaders, objects, commonPrefixes, seenPrefixes);
        objects := objects + [ObjectInfo(meta.key, meta.contentLength, meta.lastModified, meta.etag)];
      }
      lastKey := meta.key;
      count := count + 1;
      leaders := leaders + [meta];
    }
    if !isTruncated {
      WholePage(metadata, options, leaders, objects, commonPrefixes, seenPrefixes);
    }
    result := ListResult(objects, commonPrefixes, isTruncated, if isTruncated then lastKey else "");
  }

  lemma BeyondStep(ms: seq<ObjectMeta>, m: ObjectMeta, marker: string)
    ensures Beyond(ms + [m], marker) == if After(m.key, marker) then Beyond(ms, marker) + [m] else Beyond(ms, marker)
  {
    assert (ms + [m])[..|ms|] == ms;
  }

  lemma LeadersStep(ms: seq<ObjectMeta>, m: ObjectMeta, o: ListOptions)
    ensures var group := CommonPrefixOf(m.key, o);
            Leaders(ms + [m], o) ==
            if group.Some? && group.value in PrefixSet(Leaders(ms, o), o) then Leaders(ms, o) else Leaders(ms, o) + [m]
  {
    assert (ms + [m])[..|ms|] == ms;
  }

  lemma EntryStep(ms: seq<ObjectMeta>, m: ObjectMeta, o: ListOptions)
    ensures var group := CommonPrefixOf(m.key, o);
            && PrefixSet(ms + [m], o) == (if group.Some? then PrefixSet(ms, o) + {group.value} else PrefixSet(ms, o))
            && Objects(ms + [m], o) == (if group.Some? then Objects(ms, o) else Objects(ms, o) + [Info(m)])
            && CommonPrefixes(ms + [m], o) == (if group.Some? then CommonPrefixes(ms, o) + [group.value]
              else CommonPrefixes(ms, o))
  {
    assert (ms + [m])[..|ms|] == ms;
  }

  /** How one more key changes the reference listing. */
  lemma Advance(ms: seq<ObjectMeta>, i: nat, o: ListOptions)
    requires 0 < i <= |ms|
    ensures var before := Leaders(Beyond(ms[..i - 1], o.marker), o);
            var group := CommonPrefixOf(ms[i - 1].key, o);
            Leaders(Beyond(ms[..i], o.marker), o) ==
            if !After(ms[i - 1].key, o.marker) || (group.Some? && group.value in PrefixSet(before, o))
            then before else before + [ms[i - 1]]
  {
    assert ms[..i] == ms[..i - 1] + [ms[i - 1]];
    BeyondStep(ms[..i - 1], ms[i - 1], o.marker);
    LeadersStep(Beyond(ms[..i - 1], o.marker), ms[i - 1], o);
  }

  lemma NothingScanned(ms: seq<ObjectMeta>, o: ListOptions)
    ensures Scanned(ms, 0, o, [], [], [], {})
  {
    assert ms[..0] == [];
  }

  lemma Skip(ms: seq<ObjectMeta>, i: nat, o: ListOptions, leaders: seq<ObjectMeta>, objects: seq<ObjectInfo>,
             groups: seq<string>, seen: set<string>)
    requires 0 < i <= |ms| && Scanned(ms, i - 1, o, leaders, objects, groups, seen)
    requires After(ms[i - 1].key, o.marker) ==>
               CommonPrefixOf(ms[i - 1].key, o).Some? && CommonPrefixOf(ms[i - 1].key, o).value in seen
    ensures Scanned(ms, i, o, leaders, objects, groups, seen)
  {
    Advance(ms, i, o);
  }

  lemma EmitPrefix(ms: seq<ObjectMeta>, i: nat, o: ListOptions, leaders: seq<ObjectMeta>, objects: seq<ObjectInfo>,
                   groups: seq<string>, seen: set<string>)
    requires 0 < i <= |ms| && Scanned(ms, i - 1, o, leaders, objects, groups, seen)
    requires After(ms[i - 1].key, o.marker) && |leaders| < EffectiveMax(o)
    requires CommonPrefixOf(ms[i - 1].key, o).Some? && CommonPrefixOf(ms[i - 1].key, o).value !in seen
    ensures var group := CommonPrefixOf(ms[i - 1].key, o).value;
            Scanned(ms, i, o, leaders + [ms[i - 1]], objects, groups + [group], seen + {group})
  {
    Advance(ms, i, o);
    EntryStep(leaders, ms[i - 1], o);
  }

  lemma EmitObject(ms: seq<ObjectMeta>, i: nat, o: ListOptions, leaders: seq<ObjectMeta>, objects: seq<ObjectInfo>,
                   groups: seq<string>, seen: set<string>)
    requires 0 < i <= |ms| && Scanned(ms, i - 1, o, leaders, objects, groups, seen)
    requires After(ms[i - 1].key, o.marker) && |leaders| < EffectiveMax(o)
    requires CommonPrefixOf(ms[i - 1].key, o).None?
    ensures Scanned(ms, i, o, leaders + [ms[i - 1]], objects + [Info(ms[i - 1])], groups, seen)
  {
    Advance(ms, i, o);
    EntryStep(leaders, ms[i - 1], o);
  }

  /** One entry more than the limit allows: the page is cut at the limit. */
  lemma LimitReached(ms: seq<ObjectMeta>, i: nat, o: ListOptions, leaders: seq<ObjectMeta>, objects: seq<ObjectInfo>,
                     groups: seq<string>, seen: set<string>)
    requires 0 < i <= |ms| && Scanned(ms, i - 1, o, leaders, objects, groups, seen)
    requires After(ms[i - 1].key, o.marker) && |leaders| == EffectiveMax(o)
    requires CommonPrefixOf(ms[i - 1].key, o).Some? ==> CommonPrefixOf(ms[i - 1].key, o).value !in seen
    ensures Truncated(ms, o) && PageLeaders(ms, o) == leaders
  {
    Advance(ms, i, o);
    ReferenceGrows(ms, i, o);
  }

  lemma CutPage(ms: seq<ObjectMeta>, i: nat, o: ListOptions, leaders: seq<ObjectMeta>, objects: seq<ObjectInfo>,
                groups: seq<string>, seen: set<string>)
    requires 0 < i <= |ms| && Scanned(ms, i - 1, o, leaders, objects, groups, seen)
    requires After(ms[i - 1].key, o.marker) && |leaders| == EffectiveMax(o)
    requires CommonPrefixOf(ms[i - 1].key, o).Some? ==> CommonPrefixOf(ms[i - 1].key, o).value !in seen
    ensures leaders != [] && Page(ms, o) == ListResult(objects, groups, true, leaders[|leaders| - 1].key)
  {
    LimitReached(ms, i, o, leaders, objects, groups, seen);
  }

  lemma WholePage(ms: seq<ObjectMeta>, o: ListOptions, leaders: seq<ObjectMeta>, objects: seq<ObjectInfo>,
                  groups: seq<string>, seen: set<string>)
    requires Scanned(ms, |ms|, o, leaders, objects, groups, seen)
    ensures Page(ms, o) == ListResult(objects, groups, false, "")
  {
    assert ms[..|ms|] == ms;
  }

  /** Reading on never changes the entries already found. */
  lemma ReferenceGrows(ms: seq<ObjectMeta>, i: nat, o: ListOptions)
    requires i <= |ms|
    ensures Leaders(Beyond(ms[..i], o.marker), o) <= Reference(ms, o)
  {
    var all := Beyond(ms, o.marker);
    var part := Beyond(ms[..i], o.marker);
    BeyondGrows(ms, i, o.marker);
    LeadersGrow(all, |part|, o);
    assert all[..|part|] == part;
  }

  lemma {:induction false} LeadersGrow(ms: seq<ObjectMeta>, i: nat, o: ListOptions)
    requires i <= |ms|
    ensures Leaders(ms[..i], o) <= Leaders(ms, o)
    decreases |ms|
  {
    if i < |ms| {
      var short := ms[..|ms| - 1];
      LeadersGrow(short, i, o);
      assert short[..i] == ms[..i];
    } else {
      assert ms[..i] == ms;
    }
  }

  lemma {:induction false} BeyondGrows(ms: seq<ObjectMeta>, i: nat, marker: string)
    requires i <= |ms|
    ensures Beyond(ms[..i], marker) <= Beyond(ms, marker)
    decreases |ms|
  {
    if i < |ms| {
      var short := ms[..|ms| - 1];
      BeyondGrows(short, i, marker);
      assert short[..i] == ms[..i];
    } else {
      assert ms[..i] == ms;
    }
  }
}
