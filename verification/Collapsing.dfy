/** Sequences with adjacent repeats removed, and how that interacts with concatenation. */
module Collapsing {

  /** `s` with every run of equal neighbours replaced by one element. */
  function Collapse<T(==)>(s: seq<T>): (c: seq<T>)
    ensures s != [] ==> c != [] && c[|c| - 1] == s[|s| - 1]
  {
    if s == [] then []
    else
      var c := Collapse(s[..|s| - 1]);
      var last := s[|s| - 1];
      if c != [] && c[|c| - 1] == last then c else c + [last]
  }

  lemma CollapseStep<T>(s: seq<T>, x: T)
    ensures Collapse(s + [x]) == if s != [] && s[|s| - 1] == x then Collapse(s) else Collapse(s) + [x]
  {
    var whole := s + [x];
    var init := whole[..|whole| - 1];
    assert init == s;
    assert Collapse(init) == Collapse(s);
  }

  /** The first element survives. */
  lemma {:induction false} CollapseHead<T>(s: seq<T>)
    requires s != []
    ensures Collapse(s) != [] && Collapse(s)[0] == s[0]
  {
    if |s| > 1 {
      CollapseHead(s[..|s| - 1]);
    } else {
      assert Collapse(s[..0]) == [];
    }
  }

  /** Only the seam matters: collapsing a concatenation glues the two collapsed halves, dropping one element when the
      halves meet in equal elements. */
  predicate Glues<T(==)>(a: seq<T>, b: seq<T>)
  {
    Collapse(a + b) ==
    if a != [] && b != [] && a[|a| - 1] == b[0] then Collapse(a) + Collapse(b)[1..] else Collapse(a) + Collapse(b)
  }

  lemma {:induction false} CollapseSeam<T>(a: seq<T>, b: seq<T>)
    ensures Glues(a, b)
  {
    if b == [] {
      assert a + b == a;
    } else if |b| == 1 {
      Single(b);
      SeamOfOne(a, b[0]);
    } else {
      var init, x := b[..|b| - 1], b[|b| - 1];
      InitAndLast(b);
      CollapseSeam(a, init);
      SeamGrows(a, init, x);
    }
  }

  lemma Single<T>(s: seq<T>)
    requires |s| == 1
    ensures s == [s[0]]
  {
  }

  lemma InitAndLast<T>(s: seq<T>)
    requires s != []
    ensures s[..|s| - 1] + [s[|s| - 1]] == s
  {
  }

  lemma SeamGrows<T>(a: seq<T>, b: seq<T>, x: T)
    requires b != [] && Glues(a, b)
    ensures Glues(a, b + [x])
  {
    LastOfTwo(a, b, x);
    CollapseHead(b);
    CollapseStep(a + b, x);
    CollapseStep(b, x);
    SeamStep(Collapse(a), Collapse(b), x);
  }

  lemma LastOfTwo<T>(a: seq<T>, b: seq<T>, x: T)
    requires b != []
    ensures a + (b + [x]) == (a + b) + [x]
    ensures (a + b)[|a + b| - 1] == b[|b| - 1]
  {
  }

  lemma SeamOfOne<T>(a: seq<T>, x: T)
    ensures Collapse([x]) == [x] && Glues(a, [x])
  {
    CollapseStep(a, x);
    assert [] + [x] == [x];
    CollapseStep([], x);
  }

  lemma SeamStep<T>(a: seq<T>, b: seq<T>, x: T)
    requires b != []
    ensures a + (b + [x]) == (a + b) + [x]
    ensures a + (b + [x])[1..] == (a + b[1..]) + [x]
  {
  }

  lemma {:induction false} CollapseIdempotent<T>(s: seq<T>)
    ensures Collapse(Collapse(s)) == Collapse(s)
  {
    if s != [] {
      var s' := s[..|s| - 1];
      CollapseIdempotent(s');
      CollapseStep(Collapse(s'), s[|s| - 1]);
    }
  }

  /** Collapsing may be done piecewise. */
  lemma CollapsePieces<T>(a: seq<T>, b: seq<T>)
    ensures Collapse(a + b) == Collapse(Collapse(a) + Collapse(b))
  {
    CollapseSeam(a, b);
    CollapseSeam(Collapse(a), Collapse(b));
    CollapseIdempotent(a);
    CollapseIdempotent(b);
    if b != [] {
      CollapseHead(b);
    }
  }

  /** Collapsing never lengthens, and keeps the length only of sequences it leaves alone. */
  lemma {:induction false} CollapseShortens<T>(s: seq<T>)
    ensures |Collapse(s)| <= |s|
    ensures |Collapse(s)| == |s| ==> Collapse(s) == s
  {
    if s != [] {
      CollapseShortens(s[..|s| - 1]);
      assert s == s[..|s| - 1] + [s[|s| - 1]];
    }
  }
}
