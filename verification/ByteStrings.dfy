/** Go strings as byte strings: one `char` stands for one byte.  Order, prefixes and substring
    search as Go's `<`, `strings.HasPrefix`, `strings.TrimPrefix` and `strings.Index` define them. */
module ByteStrings {

  /** Go's `a < b` on strings. */
  predicate Less(a: string, b: string)
  {
    LessFrom(a, b, 0)
  }

  /** The comparison from offset `i` on. */
  predicate LessFrom(a: string, b: string, i: nat)
    requires i <= |a| && i <= |b|
    decreases |b| - i
  {
    i < |b| && (i == |a| || a[i] < b[i] || (a[i] == b[i] && LessFrom(a, b, i + 1)))
  }

  predicate HasPrefix(s: string, prefix: string)
  {
    |prefix| <= |s| && s[..|prefix|] == prefix
  }

  function TrimPrefix(s: string, prefix: string): string
  {
    if HasPrefix(s, prefix) then s[|prefix|..] else s
  }

  /** Does `sub` occur in `s` at offset `i`? */
  predicate OccursAt(s: string, sub: string, i: int)
  {
    0 <= i && i + |sub| <= |s| && s[i..i + |sub|] == sub
  }

  /** The offset of the first occurrence of `sub`, or -1. */
  function Index(s: string, sub: string): (i: int)
    ensures -1 <= i && (i >= 0 ==> i + |sub| <= |s|)
  {
    IndexFrom(s, sub, 0)
  }

  function IndexFrom(s: string, sub: string, from: nat): (i: int)
    ensures -1 <= i && (i >= 0 ==> i + |sub| <= |s|)
    decreases |s| - from
  {
    if OccursAt(s, sub, from) then from
    else if from >= |s| then -1
    else IndexFrom(s, sub, from + 1)
  }

  lemma {:induction false} IndexOccurs(s: string, sub: string, from: nat)
    requires IndexFrom(s, sub, from) >= 0
    ensures OccursAt(s, sub, IndexFrom(s, sub, from))
    decreases |s| - from
  {
    if !OccursAt(s, sub, from) {
      IndexOccurs(s, sub, from + 1);
    }
  }

  /** Nothing before the offset found, and nothing at all after -1. */
  lemma {:induction false} IndexIsFirst(s: string, sub: string, from: nat, j: nat)
    requires from <= j && OccursAt(s, sub, j)
    ensures from <= IndexFrom(s, sub, from) <= j
    decreases |s| - from
  {
    if !OccursAt(s, sub, from) {
      IndexIsFirst(s, sub, from + 1, j);
    }
  }

  /** `a` comes before `b` in byte order: where they first differ its byte is the smaller one, or it ends there. */
  ghost predicate ByteBefore(a: string, b: string)
  {
    exists i :: 0 <= i <= |a| && i < |b| && a[..i] == b[..i] && (i == |a| || a[i] as int < b[i] as int)
  }

  lemma LessIsByteOrder(a: string, b: string)
    ensures Less(a, b) <==> ByteBefore(a, b)
  {
    if Less(a, b) {
      DiffersFrom(a, b, 0);
    }
    if ByteBefore(a, b) {
      var i :| 0 <= i <= |a| && i < |b| && a[..i] == b[..i] && (i == |a| || a[i] as int < b[i] as int);
      LessUpTo(a, b, i, 0);
    }
  }

  lemma {:induction false} DiffersFrom(a: string, b: string, i: nat)
    requires i <= |a| && i <= |b| && a[..i] == b[..i] && LessFrom(a, b, i)
    ensures ByteBefore(a, b)
    decreases |a| - i
  {
    if i < |a| && a[i] == b[i] {
      assert a[..i + 1] == a[..i] + [a[i]] && b[..i + 1] == b[..i] + [b[i]];
      DiffersFrom(a, b, i + 1);
    }
  }

  lemma {:induction false} LessUpTo(a: string, b: string, i: nat, j: nat)
    requires j <= i <= |a| && i < |b| && a[..i] == b[..i] && (i == |a| || a[i] as int < b[i] as int)
    ensures LessFrom(a, b, j)
    decreases i - j
  {
    if j < i {
      assert a[j] == a[..i][j] && b[j] == b[..i][j];
      LessUpTo(a, b, i, j + 1);
    }
  }

  lemma LessIrreflexive(a: string)
    ensures !Less(a, a)
  {
    NotLessFrom(a, 0);
  }

  lemma {:induction false} NotLessFrom(a: string, i: nat)
    requires i <= |a|
    ensures !LessFrom(a, a, i)
    decreases |a| - i
  {
    if i < |a| {
      NotLessFrom(a, i + 1);
    }
  }

  lemma LessTransitive(a: string, b: string, c: string)
    requires Less(a, b) && Less(b, c)
    ensures Less(a, c)
  {
    LessTransitiveFrom(a, b, c, 0);
  }

  lemma {:induction false} LessTransitiveFrom(a: string, b: string, c: string, i: nat)
    requires i <= |a| && i <= |b| && i <= |c| && LessFrom(a, b, i) && LessFrom(b, c, i)
    ensures LessFrom(a, c, i)
    decreases |a| - i
  {
    if i < |a| && a[i] == b[i] && b[i] == c[i] {
      LessTransitiveFrom(a, b, c, i + 1);
    }
  }

  lemma LessTotal(a: string, b: string)
    ensures Less(a, b) || a == b || Less(b, a)
  {
    LessTotalFrom(a, b, 0);
  }

  lemma {:induction false} LessTotalFrom(a: string, b: string, i: nat)
    requires i <= |a| && i <= |b| && a[..i] == b[..i]
    ensures LessFrom(a, b, i) || a == b || LessFrom(b, a, i)
    decreases |a| - i
  {
    if i < |a| && i < |b| {
      if a[i] == b[i] {
        assert a[..i + 1] == a[..i] + [a[i]] && b[..i + 1] == b[..i] + [b[i]];
        LessTotalFrom(a, b, i + 1);
      }
    } else if i == |a| && i == |b| {
      assert a == a[..i] && b == b[..i];
    }
  }

  lemma LessAsymmetric(a: string, b: string)
    requires Less(a, b)
    ensures !Less(b, a) && a != b
  {
    LessIrreflexive(a);
    if Less(b, a) {
      LessTransitive(a, b, a);
    }
  }

  /** The strings with a given prefix form an interval of the order. */
  lemma PrefixIsConvex(a: string, b: string, c: string, prefix: string)
    requires Less(a, b) && Less(b, c)
    requires HasPrefix(a, prefix) && HasPrefix(c, prefix)
    ensures HasPrefix(b, prefix)
  {
    PrefixIsConvexFrom(a, b, c, prefix, 0);
  }

  lemma PrefixChar(s: string, prefix: string, i: nat)
    requires HasPrefix(s, prefix) && i < |prefix|
    ensures s[i] == prefix[i]
  {
    assert s[..|prefix|][i] == prefix[i];
  }

  lemma {:induction false} PrefixIsConvexFrom(a: string, b: string, c: string, prefix: string, i: nat)
    requires i <= |b| && i <= |prefix| && HasPrefix(a, prefix) && HasPrefix(c, prefix)
    requires LessFrom(a, b, i) && LessFrom(b, c, i) && b[..i] == prefix[..i]
    ensures HasPrefix(b, prefix)
    decreases |prefix| - i
  {
    if i < |prefix| {
      PrefixChar(a, prefix, i);
      PrefixChar(c, prefix, i);
      assert b[..i + 1] == b[..i] + [b[i]] && prefix[..i + 1] == prefix[..i] + [prefix[i]];
      PrefixIsConvexFrom(a, b, c, prefix, i + 1);
    } else {
      assert prefix[..i] == prefix;
    }
  }

  /** Of two strings that do not share each other's prefix, the prefixes are ordered as the strings are. */
  lemma PrefixesOrder(a: string, b: string, p: string, q: string)
    requires Less(a, b) && HasPrefix(a, p) && HasPrefix(b, q)
    requires !HasPrefix(a, q) && !HasPrefix(b, p)
    ensures Less(p, q)
  {
    PrefixesOrderFrom(a, b, p, q, 0);
  }

  lemma {:induction false} PrefixesOrderFrom(a: string, b: string, p: string, q: string, i: nat)
    requires i <= |p| && i <= |q| && HasPrefix(a, p) && HasPrefix(b, q)
    requires LessFrom(a, b, i) && p[..i] == q[..i]
    requires !HasPrefix(a, q) && !HasPrefix(b, p)
    ensures LessFrom(p, q, i)
    decreases |p| - i
  {
    if i == |p| {
      assert p[..i] == p;
      PrefixOfPrefix(b, q, p);
    } else if i == |q| {
      assert q[..i] == q;
      PrefixOfPrefix(a, p, q);
    } else {
      PrefixChar(a, p, i);
      PrefixChar(b, q, i);
      if p[i] == q[i] {
        assert p[..i + 1] == p[..i] + [p[i]] && q[..i + 1] == q[..i] + [q[i]];
        PrefixesOrderFrom(a, b, p, q, i + 1);
      }
    }
  }

  lemma PrefixOfPrefix(s: string, p: string, q: string)
    requires HasPrefix(s, p) && HasPrefix(p, q)
    ensures HasPrefix(s, q)
  {
  }
}
