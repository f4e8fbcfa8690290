/** Assembling parts: the completion loop walks a sorted selection and compares neighbours; its outcome depends
    only on which parts were selected. */
module Assembly {
  import opened Types
  import opened Encoding
  import opened Layout
  import opened Sorting
  import opened ObjectStore

  /** A selected part that is there, with the tag given, which spells a digest. */
  predicate Usable(parts: map<nat, Part>, c: CompletedPart)
  {
    Matches(parts, c) && TagDigest(c.etag).Some?
  }

  predicate Selectable(parts: map<nat, Part>, completed: seq<CompletedPart>)
  {
    completed != [] && NoDuplicates(completed) && forall i :: 0 <= i < |completed| ==> Usable(parts, completed[i])
  }

  const SELECTION_ORDER := (a: CompletedPart, b: CompletedPart) => a.partNumber <= b.partNumber

  lemma SelectionOrderIsTotal()
    ensures Total(SELECTION_ORDER) && Transitive(SELECTION_ORDER)
  {
  }

  // ----- duplicates -----

  predicate NoAdjacentDuplicates(completed: seq<CompletedPart>)
  {
    forall i :: 0 < i < |completed| ==> completed[i - 1].partNumber != completed[i].partNumber
  }

  /** In a sorted selection, looking at neighbours finds every duplicate. */
  lemma NeighboursTell(sorted: seq<CompletedPart>)
    requires SortedBy(SELECTION_ORDER, sorted)
    ensures NoAdjacentDuplicates(sorted) <==> NoDuplicates(sorted)
  {
    if NoAdjacentDuplicates(sorted) {
      forall i, j | 0 <= i < j < |sorted|
        ensures sorted[i].partNumber != sorted[j].partNumber
      {
        assert SELECTION_ORDER(sorted[i], sorted[j - 1]) || i == j - 1;
        assert SELECTION_ORDER(sorted[j - 1], sorted[j]);
        assert sorted[j - 1].partNumber != sorted[j].partNumber;
      }
    }
  }

  lemma PermutedDuplicates(a: seq<CompletedPart>, b: seq<CompletedPart>)
    requires NoDuplicates(a) && multiset(a) == multiset(b)
    ensures NoDuplicates(b)
  {
    assert Distinct(a);
    PermutationOfDistinct(a, b);
    forall i, j | 0 <= i < j < |b|
      ensures b[i].partNumber != b[j].partNumber
    {
      SameMembers(a, b, b[i]);
      SameMembers(a, b, b[j]);
      var k :| 0 <= k < |a| && a[k] == b[i];
      var l :| 0 <= l < |a| && a[l] == b[j];
    }
  }

  lemma PermutedNumbers(a: seq<CompletedPart>, b: seq<CompletedPart>)
    requires multiset(a) == multiset(b)
    ensures PartNumbers(a) <= PartNumbers(b)
  {
    forall n | n in PartNumbers(a)
      ensures n in PartNumbers(b)
    {
      var i :| 0 <= i < |a| && a[i].partNumber == n;
      SameMembers(a, b, a[i]);
      var j :| 0 <= j < |b| && b[j] == a[i];
    }
  }

  lemma PermutedSelection(parts: map<nat, Part>, a: seq<CompletedPart>, b: seq<CompletedPart>)
    requires multiset(a) == multiset(b) && Selectable(parts, a)
    ensures Selectable(parts, b)
  {
    PermutedDuplicates(a, b);
    SameSize(a, b);
    forall i | 0 <= i < |b|
      ensures Usable(parts, b[i])
    {
      SameMembers(a, b, b[i]);
      var k :| 0 <= k < |a| && a[k] == b[i];
    }
  }

  /** The outcome of a completion does not depend on the order in which the client lists the parts. */
  lemma OrderDoesNotMatter(h: Hashes, key: string, meta: ObjectMeta, parts: map<nat, Part>, now: int,
                           a: seq<CompletedPart>, b: seq<CompletedPart>)
    requires multiset(a) == multiset(b)
    ensures Selectable(parts, a) <==> Selectable(parts, b)
    ensures Acceptable(parts, a) <==> Acceptable(parts, b)
    ensures CompletedObject(h, key, meta, parts, a, now) == CompletedObject(h, key, meta, parts, b, now)
  {
    if Selectable(parts, a) {
      PermutedSelection(parts, a, b);
    }
    if Selectable(parts, b) {
      PermutedSelection(parts, b, a);
    }
    if Acceptable(parts, a) {
      PermutedAcceptance(parts, a, b);
    }
    if Acceptable(parts, b) {
      PermutedAcceptance(parts, b, a);
    }
    PermutedNumbers(a, b);
    PermutedNumbers(b, a);
    SameSize(a, b);
    assert PartNumbers(a) == PartNumbers(b);
    assert Assembled(parts, a) == Assembled(parts, b) && CompositeETag(h, parts, a) == CompositeETag(h, parts, b);
  }

  lemma PermutedAcceptance(parts: map<nat, Part>, a: seq<CompletedPart>, b: seq<CompletedPart>)
    requires multiset(a) == multiset(b) && Acceptable(parts, a)
    ensures Acceptable(parts, b)
  {
    PermutedDuplicates(a, b);
    SameSize(a, b);
    forall i | 0 <= i < |b|
      ensures Matches(parts, b[i])
    {
      SameMembers(a, b, b[i]);
      var k :| 0 <= k < |a| && a[k] == b[i];
    }
  }

  lemma {:induction false} BoundedSetIsSmall(s: set<int>, n: nat)
    requires forall x :: x in s ==> 1 <= x <= n
    ensures |s| <= n
  {
    if n > 0 {
      BoundedSetIsSmall(s - {n}, n - 1);
    } else {
      assert forall x :: x !in s;
    }
  }

  lemma {:induction false} NumbersCount(completed: seq<CompletedPart>)
    requires NoDuplicates(completed)
    ensures |PartNumbers(completed)| == |completed|
  {
    if completed != [] {
      var n := |completed| - 1;
      NumbersCount(completed[..n]);
      NumbersStep(completed, n);
    }
  }

  lemma NumbersStep(completed: seq<CompletedPart>, i: nat)
    requires i < |completed|
    ensures PartNumbers(completed[..i + 1]) == PartNumbers(completed[..i]) + {completed[i].partNumber}
    ensures NoDuplicates(completed) ==> completed[i].partNumber !in PartNumbers(completed[..i])
    ensures completed[..|completed|] == completed
  {
    var a, b := completed[..i], completed[..i + 1];
    forall n | n in PartNumbers(b)
      ensures n in PartNumbers(a) + {completed[i].partNumber}
    {
      var k :| 0 <= k < |b| && b[k].partNumber == n;
      if k < i {
        assert a[k] == b[k];
      }
    }
    forall n | n in PartNumbers(a)
      ensures n in PartNumbers(b)
    {
      var k :| 0 <= k < |a| && a[k].partNumber == n;
      assert b[k] == a[k];
    }
    assert b[i] == completed[i];
  }

  /** An accepted selection has at most 10000 parts, numbered from 1 to 10000. */
  lemma AcceptedSelectionIsBounded(parts: map<nat, Part>, completed: seq<CompletedPart>)
    requires Acceptable(parts, completed)
    ensures 1 <= |completed| <= 10000
    ensures forall i :: 0 <= i < |completed| ==> 1 <= completed[i].partNumber <= 10000
  {
    NumbersCount(completed);
    BoundedSetIsSmall(PartNumbers(completed), MAX_PART_NUMBER);
  }

  /** Some parts, none twice, each with a number from 1 to 10000, there, and under the tag it was recorded with. */
  predicate MayBeJoined(parts: map<nat, Part>, completed: seq<CompletedPart>)
  {
    && |completed| >= 1
    && (forall i, j :: 0 <= i < j < |completed| ==> completed[i].partNumber != completed[j].partNumber)
    && (forall i :: 0 <= i < |completed| ==>
          && 1 <= completed[i].partNumber <= 10000 && completed[i].partNumber in parts
          && completed[i].etag == parts[completed[i].partNumber].info.etag)
  }

  lemma AcceptableMayBeJoined(parts: map<nat, Part>, completed: seq<CompletedPart>)
    ensures Acceptable(parts, completed) <==> MayBeJoined(parts, completed)
  {
    if MayBeJoined(parts, completed) {
      assert forall i :: 0 <= i < |completed| ==> Matches(parts, completed[i]);
    }
  }

  // ----- the loop -----

  lemma {:induction false} UpToAgrees(parts: map<nat, Part>, s: set<int>, s': set<int>, n: nat)
    requires forall m :: 1 <= m <= n ==> (m in s <==> m in s')
    ensures DataUpTo(parts, s, n) == DataUpTo(parts, s', n) && DigestsUpTo(parts, s, n) == DigestsUpTo(parts, s', n)
  {
    if n > 0 {
      UpToAgrees(parts, s, s', n - 1);
    }
  }

  lemma {:induction false} UpToSkips(parts: map<nat, Part>, s: set<int>, lo: nat, hi: nat)
    requires lo <= hi && forall m :: lo < m <= hi ==> m !in s
    ensures DataUpTo(parts, s, hi) == DataUpTo(parts, s, lo) && DigestsUpTo(parts, s, hi) == DigestsUpTo(parts, s, lo)
    decreases hi
  {
    if lo < hi {
      UpToSkips(parts, s, lo, hi - 1);
    }
  }

  /** What the completion loop has gathered from the first `i` selected parts. */
  ghost predicate Gathered(parts: map<nat, Part>, sorted: seq<CompletedPart>, i: int, previous: int, data: Bytes,
                           digests: Bytes)
  {
    && 0 <= i <= |sorted| && previous >= 0
    && previous == (if i == 0 then 0 else sorted[i - 1].partNumber)
    && (forall j :: 0 <= j < i ==> Usable(parts, sorted[j]))
    && NoDuplicates(sorted[..i])
    && (forall n :: n in PartNumbers(sorted[..i]) ==> 1 <= n <= previous)
    && data == DataUpTo(parts, PartNumbers(sorted[..i]), previous)
    && digests == DigestsUpTo(parts, PartNumbers(sorted[..i]), previous)
  }

  lemma GatherOne(parts: map<nat, Part>, sorted: seq<CompletedPart>, i: nat, previous: int, data: Bytes, digests: Bytes)
    requires SortedBy(SELECTION_ORDER, sorted) && Gathered(parts, sorted, i, previous, data, digests)
    requires i < |sorted| && Usable(parts, sorted[i]) && sorted[i].partNumber != previous
    ensures var n := sorted[i].partNumber;
            Gathered(parts, sorted, i + 1, n, data + parts[n].data, digests + TagDigest(sorted[i].etag).value)
  {
    var n := sorted[i].partNumber;
    var s := PartNumbers(sorted[..i]);
    assert previous < n by {
      if i > 0 {
        assert SELECTION_ORDER(sorted[i - 1], sorted[i]);
      }
    }
    NumbersStep(sorted, i);
    ExtendsNoDuplicates(sorted, i);
    AppendOne(parts, s, previous, n);
  }

  /** One more number, beyond all before it. */
  lemma AppendOne(parts: map<nat, Part>, s: set<int>, previous: nat, n: nat)
    requires previous < n && (forall m :: m in s ==> 1 <= m <= previous) && n in parts
             && TagDigest(parts[n].info.etag).Some?
    ensures DataUpTo(parts, s + {n}, n) == DataUpTo(parts, s, previous) + parts[n].data
    ensures DigestsUpTo(parts, s + {n}, n) == DigestsUpTo(parts, s, previous) + TagDigest(parts[n].info.etag).value
  {
    UpToSkips(parts, s, previous, n - 1);
    UpToAgrees(parts, s, s + {n}, n - 1);
  }

  lemma ExtendsNoDuplicates(completed: seq<CompletedPart>, i: nat)
    requires i < |completed| && NoDuplicates(completed[..i]) && completed[i].partNumber !in PartNumbers(completed[..i])
    ensures NoDuplicates(completed[..i + 1])
  {
    var a, b := completed[..i], completed[..i + 1];
    assert b == a + [completed[i]];
    forall j, k | 0 <= j < k < |b|
      ensures b[j].partNumber != b[k].partNumber
    {
      assert a[j].partNumber in PartNumbers(a);
    }
  }

  lemma GatheredAll(parts: map<nat, Part>, sorted: seq<CompletedPart>, previous: int, data: Bytes, digests: Bytes)
    requires Gathered(parts, sorted, |sorted|, previous, data, digests) && sorted != []
    ensures Selectable(parts, sorted)
    ensures data == Assembled(parts, sorted) && digests == DigestsUpTo(parts, PartNumbers(sorted), MAX_PART_NUMBER)
  {
    assert sorted[..|sorted|] == sorted;
    assert ValidPartNumber(sorted[|sorted| - 1].partNumber);
    UpToSkips(parts, PartNumbers(sorted), previous, MAX_PART_NUMBER);
  }

  lemma GatherNone(parts: map<nat, Part>, sorted: seq<CompletedPart>)
    ensures Gathered(parts, sorted, 0, 0, [], [])
  {
    assert PartNumbers(sorted[..0]) == {};
  }

  /** A part that does not do, or repeats the number before it, spoils the selection in any order. */
  lemma SpoiledInAnyOrder(parts: map<nat, Part>, sorted: seq<CompletedPart>, i: nat)
    requires i < |sorted|
    requires !Usable(parts, sorted[i]) || (i > 0 && sorted[i - 1].partNumber == sorted[i].partNumber)
    ensures forall completed :: multiset(sorted) == multiset(completed) ==> !Selectable(parts, completed)
  {
    forall completed | multiset(sorted) == multiset(completed)
      ensures !Selectable(parts, completed)
    {
      if Selectable(parts, completed) {
        PermutedSelection(parts, completed, sorted);
      }
    }
  }

  // ----- what the parts' records say -----

  /** A part recorded as `UploadPart` records it. */
  predicate SoundPart(h: Hashes, n: nat, p: Part)
  {
    ValidPartNumber(n) && p.info.partNumber == n && p.info.size == |p.data| && p.info.etag == PlainETag(h, p.data)
  }

  predicate SoundParts(h: Hashes, parts: map<nat, Part>)
  {
    forall n :: n in parts ==> SoundPart(h, n, parts[n])
  }

  function SizesUpTo(parts: map<nat, Part>, chosen: set<int>, n: nat): int
  {
    if n == 0 then 0
    else if n in chosen && n in parts then SizesUpTo(parts, chosen, n - 1) + parts[n].info.size
    else SizesUpTo(parts, chosen, n - 1)
  }

  function Md5sUpTo(h: Hashes, parts: map<nat, Part>, chosen: set<int>, n: nat): Bytes
  {
    if n == 0 then []
    else if n in chosen && n in parts then Md5sUpTo(h, parts, chosen, n - 1) + h.md5(parts[n].data)
    else Md5sUpTo(h, parts, chosen, n - 1)
  }

  /** A recorded tag spells the MD5 of the part's data. */
  lemma TagSpellsMd5(h: Hashes, data: Bytes)
    ensures TagDigest(PlainETag(h, data)) == Some(h.md5(data))
  {
    var hex := Hex(h.md5(data));
    HexRoundTrip(h.md5(data));
    var quoted := Quoted(hex);
    assert quoted[1..] == hex + "\"";
    if hex == "" {
      assert TrimQuotesLeft(quoted[1..][1..]) == "";
      assert TrimQuotesLeft(quoted[1..]) == "";
    } else {
      var tail := quoted[1..];
      assert tail[0] == hex[0] && hex[|hex| - 1] != '"';
      assert TrimQuotesLeft(quoted) == tail;
      assert tail[..|tail| - 1] == hex;
      assert TrimQuotesRight(tail) == hex;
    }
  }

  /** For recorded parts every tag decodes, so a selection is taken exactly when it is acceptable. */
  lemma SelectableIsAcceptable(h: Hashes, parts: map<nat, Part>, completed: seq<CompletedPart>)
    requires SoundParts(h, parts)
    ensures Selectable(parts, completed) <==> Acceptable(parts, completed)
  {
    forall i | 0 <= i < |completed|
      ensures Usable(parts, completed[i]) <==> Matches(parts, completed[i])
    {
      if Matches(parts, completed[i]) {
        TagSpellsMd5(h, parts[completed[i].partNumber].data);
      }
    }
  }

  lemma {:induction false} RecordsAddUp(h: Hashes, parts: map<nat, Part>, chosen: set<int>, n: nat)
    requires SoundParts(h, parts)
    ensures |DataUpTo(parts, chosen, n)| == SizesUpTo(parts, chosen, n)
    ensures DigestsUpTo(parts, chosen, n) == Md5sUpTo(h, parts, chosen, n)
  {
    if n > 0 {
      RecordsAddUp(h, parts, chosen, n - 1);
      if n in parts {
        TagSpellsMd5(h, parts[n].data);
      }
    }
  }

  // ----- joining pieces -----

  predicate Rising(numbers: seq<int>)
  {
    forall i, j :: 0 <= i < j < |numbers| ==> numbers[i] < numbers[j]
  }

  function Pick(pieces: map<int, Bytes>, numbers: seq<int>): seq<Bytes>
  {
    if numbers == [] then []
    else
      var last := numbers[|numbers| - 1];
      Pick(pieces, numbers[..|numbers| - 1]) + [if last in pieces then pieces[last] else []]
  }

  /** The numbers of a selection, in ascending order. */
  ghost predicate Numbers(numbers: seq<int>, completed: seq<CompletedPart>)
  {
    Rising(numbers) && forall n :: n in numbers <==> exists i :: 0 <= i < |completed| && completed[i].partNumber == n
  }

  /** The pieces of the selected numbers, one after another in ascending number. */
  ghost predicate Joins(bytes: Bytes, pieces: map<int, Bytes>, completed: seq<CompletedPart>)
  {
    exists numbers ::
      && Numbers(numbers, completed) && (forall n :: n in numbers ==> n in pieces)
      && bytes == Concat(Pick(pieces, numbers))
  }

  function Datas(parts: map<nat, Part>): map<int, Bytes>
  {
    map n | n in parts :: parts[n].data
  }

  function Md5s(h: Hashes, parts: map<nat, Part>): map<int, Bytes>
  {
    map n | n in parts :: h.md5(parts[n].data)
  }

  function NumbersUpTo(chosen: set<int>, n: nat): seq<int>
  {
    if n == 0 then []
    else if n in chosen then NumbersUpTo(chosen, n - 1) + [n]
    else NumbersUpTo(chosen, n - 1)
  }

  lemma {:induction false} NumbersRise(chosen: set<int>, n: nat)
    ensures Rising(NumbersUpTo(chosen, n))
    ensures forall m :: m in NumbersUpTo(chosen, n) <==> m in chosen && 1 <= m <= n
  {
    if n > 0 {
      NumbersRise(chosen, n - 1);
      var before := NumbersUpTo(chosen, n - 1);
      assert forall i :: 0 <= i < |before| ==> before[i] in before;
    }
  }

  lemma PickOne(pieces: map<int, Bytes>, numbers: seq<int>, n: int)
    requires n in pieces
    ensures Concat(Pick(pieces, numbers + [n])) == Concat(Pick(pieces, numbers)) + pieces[n]
  {
    assert (numbers + [n])[..|numbers|] == numbers;
    var picked := Pick(pieces, numbers);
    assert (picked + [pieces[n]])[..|picked|] == picked;
  }

  lemma {:induction false} DataPicks(parts: map<nat, Part>, pieces: map<int, Bytes>, chosen: set<int>, n: nat)
    requires forall m :: m in chosen && 1 <= m <= n ==> m in parts && m in pieces && pieces[m] == parts[m].data
    ensures DataUpTo(parts, chosen, n) == Concat(Pick(pieces, NumbersUpTo(chosen, n)))
  {
    if n > 0 {
      DataPicks(parts, pieces, chosen, n - 1);
      if n in chosen {
        PickOne(pieces, NumbersUpTo(chosen, n - 1), n);
      }
    }
  }

  lemma {:induction false} Md5sPick(h: Hashes, parts: map<nat, Part>, pieces: map<int, Bytes>, chosen: set<int>,
                                    n: nat)
    requires forall m :: m in chosen && 1 <= m <= n ==> m in parts && m in pieces && pieces[m] == h.md5(parts[m].data)
    ensures Md5sUpTo(h, parts, chosen, n) == Concat(Pick(pieces, NumbersUpTo(chosen, n)))
  {
    if n > 0 {
      Md5sPick(h, parts, pieces, chosen, n - 1);
      if n in chosen {
        PickOne(pieces, NumbersUpTo(chosen, n - 1), n);
      }
    }
  }

  lemma NumbersOf(completed: seq<CompletedPart>, n: nat)
    requires forall i :: 0 <= i < |completed| ==> 1 <= completed[i].partNumber <= n
    ensures Numbers(NumbersUpTo(PartNumbers(completed), n), completed)
  {
    NumbersRise(PartNumbers(completed), n);
  }

  lemma JoinsBy(numbers: seq<int>, pieces: map<int, Bytes>, completed: seq<CompletedPart>)
    requires Numbers(numbers, completed)
    requires forall i :: 0 <= i < |completed| ==> completed[i].partNumber in pieces
    ensures Joins(Concat(Pick(pieces, numbers)), pieces, completed)
  {
  }

  lemma AssembledJoins(h: Hashes, parts: map<nat, Part>, completed: seq<CompletedPart>)
    requires MayBeJoined(parts, completed)
    ensures Joins(Assembled(parts, completed), Datas(parts), completed)
    ensures Joins(Md5sUpTo(h, parts, PartNumbers(completed), 10000), Md5s(h, parts), completed)
  {
    JoinsUpTo(h, parts, completed, 10000);
  }

  lemma JoinsUpTo(h: Hashes, parts: map<nat, Part>, completed: seq<CompletedPart>, n: nat)
    requires forall i :: 0 <= i < |completed| ==> 1 <= completed[i].partNumber <= n && completed[i].partNumber in parts
    ensures Joins(DataUpTo(parts, PartNumbers(completed), n), Datas(parts), completed)
    ensures Joins(Md5sUpTo(h, parts, PartNumbers(completed), n), Md5s(h, parts), completed)
  {
    var chosen := PartNumbers(completed);
    NumbersOf(completed, n);
    JoinsBy(NumbersUpTo(chosen, n), Datas(parts), completed);
    JoinsBy(NumbersUpTo(chosen, n), Md5s(h, parts), completed);
    DataPicks(parts, Datas(parts), chosen, n);
    Md5sPick(h, parts, Md5s(h, parts), chosen, n);
  }

  function TagDigests(parts: map<nat, Part>): map<int, Bytes>
  {
    map n | n in parts && TagDigest(parts[n].info.etag).Some? :: TagDigest(parts[n].info.etag).value
  }

  /** The object is what the selected parts join to, with what its upload was started with. */
  ghost predicate IsJoined(h: Hashes, key: string, given: ObjectMeta, parts: map<nat, Part>,
                           completed: seq<CompletedPart>, now: int, o: Object)
  {
    && Joins(o.data, Datas(parts), completed)
    && Records(o.meta, key, o.data, given.contentType, given.userMetadata, now)
    && exists digests ::
         Joins(digests, TagDigests(parts), completed) && QuotesComposite(o.meta.etag, h.md5(digests), |completed|)
  }

  lemma SelectableMayBeJoined(parts: map<nat, Part>, completed: seq<CompletedPart>)
    ensures Selectable(parts, completed) <==>
            MayBeJoined(parts, completed) && forall i :: 0 <= i < |completed| ==> TagDigest(completed[i].etag).Some?
  {
    AcceptableMayBeJoined(parts, completed);
    if Acceptable(parts, completed) && forall i :: 0 <= i < |completed| ==> TagDigest(completed[i].etag).Some? {
      assert forall i :: 0 <= i < |completed| ==> Usable(parts, completed[i]);
    }
    if Selectable(parts, completed) {
      assert forall i :: 0 <= i < |completed| ==> Usable(parts, completed[i]);
    }
  }

  lemma {:induction false} DigestsPick(parts: map<nat, Part>, pieces: map<int, Bytes>, chosen: set<int>, n: nat)
    requires forall m :: m in chosen && 1 <= m <= n ==>
               m in parts && m in pieces && TagDigest(parts[m].info.etag) == Some(pieces[m])
    ensures DigestsUpTo(parts, chosen, n) == Concat(Pick(pieces, NumbersUpTo(chosen, n)))
  {
    if n > 0 {
      DigestsPick(parts, pieces, chosen, n - 1);
      if n in chosen {
        PickOne(pieces, NumbersUpTo(chosen, n - 1), n);
      }
    }
  }

  lemma DigestsJoin(parts: map<nat, Part>, completed: seq<CompletedPart>, n: nat)
    requires forall i :: 0 <= i < |completed| ==>
               1 <= completed[i].partNumber <= n && completed[i].partNumber in TagDigests(parts)
    ensures Joins(DigestsUpTo(parts, PartNumbers(completed), n), TagDigests(parts), completed)
  {
    var chosen := PartNumbers(completed);
    NumbersOf(completed, n);
    JoinsBy(NumbersUpTo(chosen, n), TagDigests(parts), completed);
    DigestsPick(parts, TagDigests(parts), chosen, n);
  }

  lemma CompletedIsJoined(h: Hashes, key: string, given: ObjectMeta, parts: map<nat, Part>,
                          completed: seq<CompletedPart>, now: int)
    requires Selectable(parts, completed)
    ensures IsJoined(h, key, given, parts, completed, now, CompletedObject(h, key, given, parts, completed, now))
  {
    SelectableMayBeJoined(parts, completed);
    AssembledJoins(h, parts, completed);
    DigestsJoin(parts, completed, 10000);
    CompositeQuotes(h.md5(DigestsUpTo(parts, PartNumbers(completed), 10000)), |completed|);
  }

  /** A completed object is what the selected parts' data join to, in ascending number.  It has the content type and the
      user metadata its upload was started with, and as its tag the quoted MD5 of the parts' joined MD5s, with their
      count. */
  lemma CompletedObjectIsSound(h: Hashes, key: string, meta: ObjectMeta, parts: map<nat, Part>,
                               completed: seq<CompletedPart>, now: int)
    requires SoundParts(h, parts)
    ensures var o, chosen := CompletedObject(h, key, meta, parts, completed, now), PartNumbers(completed);
            && Records(o.meta, key, o.data, meta.contentType, meta.userMetadata, now)
            && o.meta.contentLength == SizesUpTo(parts, chosen, 10000)
            && QuotesComposite(o.meta.etag, h.md5(Md5sUpTo(h, parts, chosen, 10000)), |completed|)
            && (MayBeJoined(parts, completed) ==>
                  && Joins(o.data, Datas(parts), completed)
                  && Joins(Md5sUpTo(h, parts, chosen, 10000), Md5s(h, parts), completed))
  {
    var chosen := PartNumbers(completed);
    RecordsAddUp(h, parts, chosen, MAX_PART_NUMBER);
    if MayBeJoined(parts, completed) {
      AssembledJoins(h, parts, completed);
    }
    CompositeQuotes(h.md5(Md5sUpTo(h, parts, chosen, 10000)), |completed|);
  }
}
