/** Listing a bucket of the store, page after page. */
module BucketWalks {
  import opened Types
  import opened ByteStrings
  import opened Listing
  import opened Grouping
  import opened Walking
  import opened Pages
  import opened ObjectStore

  ghost predicate KeysMatch(objects: map<string, Object>)
  {
    forall k :: k in objects ==> objects[k].meta.key == k
  }

  // ----- a bucket's keys can be put in order -----

  function InsertByKey(ms: seq<ObjectMeta>, m: ObjectMeta): seq<ObjectMeta>
  {
    if ms == [] || Less(m.key, ms[0].key) then [m] + ms else [ms[0]] + InsertByKey(ms[1..], m)
  }

  lemma {:induction false} InsertMembers(ms: seq<ObjectMeta>, m: ObjectMeta)
    ensures forall x :: x in InsertByKey(ms, m) <==> x == m || x in ms
  {
    if ms != [] && !Less(m.key, ms[0].key) {
      InsertMembers(ms[1..], m);
      assert ms == [ms[0]] + ms[1..];
    }
  }

  lemma AscendingCons(m: ObjectMeta, ms: seq<ObjectMeta>)
    requires Ascending(ms) && forall x :: x in ms ==> Less(m.key, x.key)
    ensures Ascending([m] + ms)
  {
    forall i, j | 0 <= i < j < |ms| + 1
      ensures Precedes([m] + ms, i, j)
    {
      if i == 0 {
        assert ms[j - 1] in ms;
      } else {
        InOrder(ms, i - 1, j - 1);
      }
    }
  }

  lemma FirstIsLeast(ms: seq<ObjectMeta>)
    requires Ascending(ms) && ms != []
    ensures forall x :: x in ms[1..] ==> Less(ms[0].key, x.key)
  {
    forall x | x in ms[1..]
      ensures Less(ms[0].key, x.key)
    {
      var i :| 0 <= i < |ms| - 1 && ms[1..][i] == x;
      InOrder(ms, 0, i + 1);
    }
  }

  lemma {:induction false} InsertAscends(ms: seq<ObjectMeta>, m: ObjectMeta)
    requires Ascending(ms) && forall x :: x in ms ==> x.key != m.key
    ensures Ascending(InsertByKey(ms, m))
  {
    if ms == [] {
      AscendingCons(m, ms);
    } else if Less(m.key, ms[0].key) {
      forall x | x in ms
        ensures Less(m.key, x.key)
      {
        var i :| 0 <= i < |ms| && ms[i] == x;
        if i > 0 {
          InOrder(ms, 0, i);
          LessTransitive(m.key, ms[0].key, x.key);
        }
      }
      AscendingCons(m, ms);
    } else {
      LessTotal(m.key, ms[0].key);
      assert ms[0] in ms;
      AscendingParts(ms, 1);
      FirstIsLeast(ms);
      InsertAscends(ms[1..], m);
      InsertMembers(ms[1..], m);
      AscendingCons(ms[0], InsertByKey(ms[1..], m));
    }
  }

  lemma {:induction false} Enumerable(objects: map<string, Object>, prefix: string) returns (ms: seq<ObjectMeta>)
    requires KeysMatch(objects)
    ensures Enumerates(ms, objects, prefix)
    decreases |objects|
  {
    if objects == map[] {
      ms := [];
    } else {
      var k :| k in objects;
      var rest := objects - {k};
      var others := Enumerable(rest, prefix);
      var m := objects[k].meta;
      ms := if HasPrefix(k, prefix) then InsertByKey(others, m) else others;
      if HasPrefix(k, prefix) {
        InsertAscends(others, m);
        InsertMembers(others, m);
      }
    }
  }

  /** A bucket's listing has a well-defined order: exactly the matching objects, by ascending key. */
  lemma EnumerationEnumerates(objects: map<string, Object>, prefix: string)
    requires KeysMatch(objects)
    ensures Enumerates(Enumeration(objects, prefix), objects, prefix)
  {
    var ms := Enumerable(objects, prefix);
    EnumerationIs(objects, prefix, ms);
  }

  /** A walk over the bucket gets anywhere: there is no empty key to fill the first page on its own. */
  predicate BucketProgresses(objects: map<string, Object>, o: ListOptions)
  {
    EffectiveMax(o) > 1 || o.marker != "" || o.prefix != "" || "" !in objects || objects.Keys == {""}
  }

  lemma BucketIsListable(objects: map<string, Object>, o: ListOptions)
    requires KeysMatch(objects)
    ensures Listable(Enumeration(objects, o.prefix), o)
    ensures Progresses(Enumeration(objects, o.prefix), o) <==> BucketProgresses(objects, o)
  {
    EnumerationEnumerates(objects, o.prefix);
    var ms := Enumeration(objects, o.prefix);
    assert forall i :: 0 <= i < |ms| ==> ms[i] in ms;
    if "" in objects && objects.Keys != {""} && o.prefix == "" {
      EmptyKeyHasCompany(objects, ms);
    } else if |ms| > 1 {
      assert ms[0] in ms && ms[1] in ms;
      InOrder(ms, 0, 1);
      LessAsymmetric(ms[0].key, ms[1].key);
    }
  }

  lemma EmptyKeyHasCompany(objects: map<string, Object>, ms: seq<ObjectMeta>)
    requires KeysMatch(objects) && Enumerates(ms, objects, "") && "" in objects && objects.Keys != {""}
    ensures |ms| > 1 && ms[0].key == ""
  {
    var k :| k in objects && k != "";
    assert objects[""].meta in ms && objects[k].meta in ms;
    var i :| 0 <= i < |ms| && ms[i] == objects[""].meta;
    EmptyKeyIsFirst(ms, i);
  }

  // ----- every object once -----

  lemma BeyondAscends(ms: seq<ObjectMeta>, marker: string)
    requires Ascending(ms)
    ensures Ascending(Beyond(ms, marker))
  {
    var c := BeyondIsSuffix(ms, marker);
    AscendingParts(ms, c);
  }

  /** A walk over a bucket, whatever its page size, returns every object beyond the marker that has the prefix and is
      not rolled up, exactly once, in ascending key order, unless an empty key stalls it. */
  lemma EveryObjectOnce(objects: map<string, Object>, o: ListOptions)
    requires KeysMatch(objects) && BucketProgresses(objects, o)
    ensures var ms := Enumeration(objects, o.prefix);
            Listable(ms, o) && Progresses(ms, o) &&
            var items := ItemsOf(EntriesOver(ms, Walk(ms, o)));
            && (forall i, j :: 0 <= i < j < |items| ==> Less(items[i].key, items[j].key))
            && (forall info :: info in items <==>
                  info.key in objects && info == Info(objects[info.key].meta)
                  && HasPrefix(info.key, o.prefix) && After(info.key, o.marker) && CommonPrefixOf(info.key, o).None?)
  {
    var ms := Enumeration(objects, o.prefix);
    EnumerationEnumerates(objects, o.prefix);
    BucketIsListable(objects, o);
    WalkReturnsObjectsOnce(ms, o);
    BeyondAscends(ms, o.marker);
    ObjectsAscend(Beyond(ms, o.marker), o);
    BeyondMembers(ms, o.marker);
    forall info
      ensures info in Objects(Beyond(ms, o.marker), o) <==>
              info.key in objects && info == Info(objects[info.key].meta)
              && HasPrefix(info.key, o.prefix) && After(info.key, o.marker) && CommonPrefixOf(info.key, o).None?
    {
      ObjectsMember(Beyond(ms, o.marker), o, info);
      if info.key in objects {
        assert objects[info.key].meta in ms <==> HasPrefix(info.key, o.prefix);
      }
    }
  }
}
