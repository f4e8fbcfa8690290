/** Bucket naming: the validator's loops, and the set of names they accept. */
module BucketNames {
  import opened Encoding

  predicate IsLower(c: char)
  {
    'a' <= c <= 'z'
  }

  predicate IsAlphanumeric(c: char)
  {
    IsLower(c) || IsDigit(c)
  }

  /** One to three digits. */
  predicate NumberGroup(s: string)
  {
    1 <= |s| <= 3 && AllDigits(s)
  }

  /** `x.x.x.x` with every `x` a group of one to three digits. */
  ghost predicate FourNumberGroups(name: string)
  {
    exists a, b, c, d ::
      && NumberGroup(a) && NumberGroup(b) && NumberGroup(c) && NumberGroup(d)
      && name == a + "." + b + "." + c + "." + d
  }

  predicate ValidCharacters(name: string)
  {
    forall i :: 0 <= i < |name| ==>
      IsAlphanumeric(name[i]) || ((name[i] == '-' || name[i] == '.') && 0 < i < |name| - 1)
  }

  predicate AdjacentDots(name: string)
  {
    exists i :: 0 <= i < |name| - 1 && name[i] == '.' && name[i + 1] == '.'
  }

  /** The names a bucket can have. */
  ghost predicate ValidBucketName(name: string)
  {
    3 <= |name| <= 63 && ValidCharacters(name) && !AdjacentDots(name) && !FourNumberGroups(name)
  }

  // ----- strings.Split(name, ".") -----

  function Joined(parts: seq<string>): string
    requires parts != []
  {
    if |parts| == 1 then parts[0] else parts[0] + "." + Joined(parts[1..])
  }

  function FirstDot(s: string): (i: nat)
    ensures i <= |s| && (i < |s| ==> s[i] == '.') && forall j :: 0 <= j < i ==> s[j] != '.'
  {
    if s == "" || s[0] == '.' then 0 else 1 + FirstDot(s[1..])
  }

  function Split(s: string): (parts: seq<string>)
    ensures parts != []
  {
    var i := FirstDot(s);
    if i == |s| then [s] else [s[..i]] + Split(s[i + 1..])
  }

  lemma {:induction false} JoinOfSplit(s: string)
    ensures Joined(Split(s)) == s
  {
    var i := FirstDot(s);
    if i < |s| {
      JoinOfSplit(s[i + 1..]);
      JoinedCons(s[..i], Split(s[i + 1..]));
      CutAt(s, i);
    }
  }

  lemma JoinedCons(first: string, rest: seq<string>)
    requires rest != []
    ensures Joined([first] + rest) == first + "." + Joined(rest)
  {
    assert ([first] + rest)[1..] == rest;
  }

  lemma CutAt(s: string, i: nat)
    requires i < |s| && s[i] == '.'
    ensures s[..i] + "." + s[i + 1..] == s
  {
  }

  predicate DotFree(s: string)
  {
    forall i :: 0 <= i < |s| ==> s[i] != '.'
  }

  lemma {:induction false} SplitOfJoin(parts: seq<string>)
    requires parts != [] && forall k :: 0 <= k < |parts| ==> DotFree(parts[k])
    ensures Split(Joined(parts)) == parts
  {
    var s, i := Joined(parts), FirstDot(Joined(parts));
    if |parts| == 1 {
      assert i == |s|;
    } else {
      SplitOfJoin(parts[1..]);
      assert s[|parts[0]|] == '.';
      assert forall j :: 0 <= j < |parts[0]| ==> s[j] == parts[0][j];
      assert i == |parts[0]|;
      assert s[..i] == parts[0] && s[i + 1..] == Joined(parts[1..]);
    }
  }

  method IsIPAddress(name: string) returns (r: bool)
    ensures r <==> FourNumberGroups(name)
  {
    var parts := Split(name);
    GroupsAreParts(name);
    if |parts| != 4 {
      return false;
    }
    for k := 0 to |parts|
      invariant forall j :: 0 <= j < k ==> NumberGroup(parts[j])
    {
      var part := parts[k];
      if |part| == 0 || |part| > 3 {
        return false;
      }
      for i := 0 to |part|
        invariant forall j :: 0 <= j < i ==> IsDigit(part[j])
      {
        if part[i] < '0' || part[i] > '9' {
          return false;
        }
      }
    }
    return true;
  }

  lemma GroupsAreParts(name: string)
    ensures FourNumberGroups(name) <==> |Split(name)| == 4 && forall j :: 0 <= j < 4 ==> NumberGroup(Split(name)[j])
  {
    if FourNumberGroups(name) {
      GroupsSplit(name);
    } else {
      PartsJoin(name);
    }
  }

  lemma JoinedFour(a: string, b: string, c: string, d: string)
    ensures Joined([a, b, c, d]) == a + "." + b + "." + c + "." + d
  {
    JoinedCons(a, [b, c, d]);
    JoinedCons(b, [c, d]);
    JoinedCons(c, [d]);
    assert [a] + [b, c, d] == [a, b, c, d] && [b] + [c, d] == [b, c, d] && [c] + [d] == [c, d];
    Regroup(a, b, c, d, ".");
  }

  lemma Regroup(a: string, b: string, c: string, d: string, dot: string)
    ensures a + dot + (b + dot + (c + dot + d)) == a + dot + b + dot + c + dot + d
  {
  }

  lemma GroupsSplit(name: string)
    requires FourNumberGroups(name)
    ensures |Split(name)| == 4 && forall j :: 0 <= j < 4 ==> NumberGroup(Split(name)[j])
  {
    var a, b, c, d :| NumberGroup(a) && NumberGroup(b) && NumberGroup(c) && NumberGroup(d)
      && name == a + "." + b + "." + c + "." + d;
    JoinedFour(a, b, c, d);
    SplitOfJoin([a, b, c, d]);
  }

  lemma PartsJoin(name: string)
    ensures |Split(name)| == 4 && (forall j :: 0 <= j < 4 ==> NumberGroup(Split(name)[j])) ==> FourNumberGroups(name)
  {
    var parts := Split(name);
    JoinOfSplit(name);
    if |parts| == 4 && forall j :: 0 <= j < 4 ==> NumberGroup(parts[j]) {
      assert parts == [parts[0], parts[1], parts[2], parts[3]];
      JoinedFour(parts[0], parts[1], parts[2], parts[3]);
    }
  }

  /** Accepts exactly the valid bucket names. */
  method IsValidBucketName(name: string) returns (r: bool)
    ensures r <==> ValidBucketName(name)
  {
    if |name| < 3 || |name| > 63 {
      return false;
    }
    for i := 0 to |name| - 1
      invariant forall j :: 0 <= j < i ==> !(name[j] == '.' && name[j + 1] == '.')
    {
      if name[i] == '.' && name[i + 1] == '.' {
        return false;
      }
    }
    var ip := IsIPAddress(name);
    if ip {
      return false;
    }
    for i := 0 to |name|
      invariant forall j :: 0 <= j < i ==>
        IsAlphanumeric(name[j]) || ((name[j] == '-' || name[j] == '.') && 0 < j < |name| - 1)
    {
      var c := name[i];
      if 'a' <= c <= 'z' {
        continue;
      }
      if '0' <= c <= '9' {
        continue;
      }
      if c == '-' {
        if i == 0 || i == |name| - 1 {
          return false;
        }
        continue;
      }
      if c == '.' {
        if i == 0 || i == |name| - 1 {
          return false;
        }
        continue;
      }
      return false;
    }
    return true;
  }

  /** A valid name is one path segment, and not the directory of bucket records. */
  lemma ValidNamesAreSafe(name: string)
    requires ValidBucketName(name)
    ensures name != "bucket_metadata" && name != "" && name != "." && name != ".." && '/' !in name && name[0] != '.'
  {
    var reserved := "bucket_metadata";
    assert reserved[6] == '_';
  }
}
