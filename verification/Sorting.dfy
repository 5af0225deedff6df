/**
  Go's `sort.Slice`, `sort.Sort` and `sort.Strings` promise only an ordered permutation of their
  argument and are not stable. `SortBy` promises exactly that, so nothing proved about its callers
  depends on how equal elements end up arranged.
 */
module Sorting {

  predicate SortedBy<T>(le: (T, T) -> bool, s: seq<T>) {
    forall i, j :: 0 <= i < j < |s| ==> le(s[i], s[j])
  }

  predicate Chains<T>(le: (T, T) -> bool, x: T, y: T, z: T) {
    le(x, y) && le(y, z) ==> le(x, z)
  }

  predicate Tie<T>(le: (T, T) -> bool, x: T, y: T) {
    le(x, y) && le(y, x)
  }

  /** No two different elements of `s` are equal in the order. */
  ghost predicate NoTies<T(!new)>(le: (T, T) -> bool, s: seq<T>) {
    forall x, y :: x in s && y in s && Tie(le, x, y) ==> x == y
  }

  // Transitivity goes through `Chains` so that a proof has to ask for each use of it.
  ghost predicate TotalPreorder<T(!new)>(le: (T, T) -> bool) {
    && (forall x, y :: le(x, y) || le(y, x))
    && (forall x, y, z :: Chains(le, x, y, z))
  }

  ghost predicate SortOf<T(!new)>(le: (T, T) -> bool, s: seq<T>, sorted: seq<T>) {
    SortedBy(le, sorted) && multiset(sorted) == multiset(s)
  }

  method SortBy<T(!new)>(le: (T, T) -> bool, s: seq<T>) returns (sorted: seq<T>)
    requires TotalPreorder(le)
    ensures SortOf(le, s, sorted)
  {
    sorted := [];
    for i := 0 to |s|
      invariant SortOf(le, s[..i], sorted)
    {
      ghost var before := sorted;
      sorted := Insert(le, sorted, s[i]);
      assert s[..i + 1] == s[..i] + [s[i]];
    }
    assert s[..|s|] == s;
  }

  method Insert<T(!new)>(le: (T, T) -> bool, s: seq<T>, x: T) returns (r: seq<T>)
    requires TotalPreorder(le) && SortedBy(le, s)
    ensures SortedBy(le, r) && multiset(r) == multiset(s) + multiset{x}
  {
    var i := |s|;
    while i > 0 && !le(s[i - 1], x)
      invariant 0 <= i <= |s|
      invariant forall j :: i <= j < |s| ==> le(x, s[j])
    {
      i := i - 1;
    }
    r := s[..i] + [x] + s[i..];
    InsertKeepsOrder(le, s, x, i);
    InsertKeepsElements(s, x, i);
  }

  lemma InsertKeepsOrder<T(!new)>(le: (T, T) -> bool, s: seq<T>, x: T, i: nat)
    requires TotalPreorder(le) && SortedBy(le, s) && i <= |s|
    requires i > 0 ==> le(s[i - 1], x)
    requires forall j :: i <= j < |s| ==> le(x, s[j])
    ensures SortedBy(le, s[..i] + [x] + s[i..])
  {
    var r := s[..i] + [x] + s[i..];
    forall j, k | 0 <= j < k < |r| ensures le(r[j], r[k]) {
      if k == i {
        assert r[j] == s[j] && r[k] == x;
        assert Chains(le, s[j], s[i - 1], x);
      } else if j == i {
        assert r[j] == x && r[k] == s[k - 1];
      } else {
        assert r[j] == s[if j < i then j else j - 1] && r[k] == s[if k < i then k else k - 1];
      }
    }
  }

  lemma InsertKeepsElements<T>(s: seq<T>, x: T, i: nat)
    requires i <= |s|
    ensures multiset(s[..i] + [x] + s[i..]) == multiset(s) + multiset{x}
  {
    assert s == s[..i] + s[i..];
  }

  /** Equal multisets of elements have the same members. */
  lemma SameMembers<T>(a: seq<T>, b: seq<T>)
    requires multiset(a) == multiset(b)
    ensures |a| == |b|
    ensures forall x :: x in a <==> x in b
  {
    assert |multiset(a)| == |a| && |multiset(b)| == |b|;
    forall x ensures x in a <==> x in b {
      assert x in a <==> x in multiset(a);
      assert x in b <==> x in multiset(b);
    }
  }

  /** When no two different elements tie, there is only one way to sort. */
  lemma {:induction false} SortedUnique<T(!new)>(le: (T, T) -> bool, a: seq<T>, b: seq<T>)
    requires SortedBy(le, a) && SortedBy(le, b) && multiset(a) == multiset(b)
    requires NoTies(le, a)
    ensures a == b
  {
    SameMembers(a, b);
    if a != [] {
      assert a[0] in b && b[0] in a;
      SameLeast(le, a, b);
      SameTail(a, b);
      SortedUnique(le, a[1..], b[1..]);
    }
  }

  lemma SameTail<T>(a: seq<T>, b: seq<T>)
    requires multiset(a) == multiset(b) && |a| > 0 && |b| > 0 && a[0] == b[0]
    ensures multiset(a[1..]) == multiset(b[1..])
    ensures a == [a[0]] + a[1..] && b == [a[0]] + b[1..]
  {
    assert a == [a[0]] + a[1..] && b == [a[0]] + b[1..];
    calc {
      multiset(a[1..]);
      multiset(a) - multiset{a[0]};
      multiset(b) - multiset{a[0]};
      multiset(b[1..]);
    }
  }

  lemma SameLeast<T(!new)>(le: (T, T) -> bool, a: seq<T>, b: seq<T>)
    requires SortedBy(le, a) && SortedBy(le, b) && |a| > 0 && |b| > 0
    requires multiset(a) == multiset(b)
    requires NoTies(le, a)
    ensures a[0] == b[0]
  {
    SameMembers(a, b);
    var x, y := a[0], b[0];
    assert x in b && y in a;
    var i :| 0 <= i < |b| && b[i] == x;
    var j :| 0 <= j < |a| && a[j] == y;
    if i != 0 && j != 0 {
      assert le(b[0], b[i]) && le(a[0], a[j]);
      assert Tie(le, x, y);
    }
  }

  /** Distinct elements stay distinct when they are rearranged. */
  lemma DistinctPreserved<T>(a: seq<T>, b: seq<T>)
    requires multiset(a) == multiset(b)
    requires forall i, j :: 0 <= i < j < |a| ==> a[i] != a[j]
    ensures forall i, j :: 0 <= i < j < |b| ==> b[i] != b[j]
  {
    forall i, j | 0 <= i < j < |b| ensures b[i] != b[j] {
      if b[i] == b[j] {
        var x := b[i];
        assert b == b[..i] + [x] + b[i + 1..j] + [x] + b[j + 1..];
        assert multiset(b)[x] >= 2;
        MultiplicityOne(a, x);
      }
    }
  }

  lemma {:induction false} MultiplicityOne<T>(a: seq<T>, x: T)
    requires forall i, j :: 0 <= i < j < |a| ==> a[i] != a[j]
    ensures multiset(a)[x] <= 1
  {
    if a != [] {
      assert a == [a[0]] + a[1..];
      MultiplicityOne(a[1..], x);
      if a[0] == x {
        assert x !in a[1..];
      }
    }
  }
}

/** The bytewise order of Go strings. */
module StringOrder {
  import opened Sorting

  predicate Less(a: string, b: string) {
    |b| > 0 && (|a| == 0 || a[0] < b[0] || (a[0] == b[0] && Less(a[1..], b[1..])))
  }

  predicate AtMost(a: string, b: string) {
    !Less(b, a)
  }

  lemma {:induction false} Trichotomy(a: string, b: string)
    ensures Less(a, b) || Less(b, a) || a == b
    ensures !(Less(a, b) && Less(b, a))
    ensures a == b ==> !Less(a, b)
  {
    if |a| > 0 && |b| > 0 && a[0] == b[0] {
      Trichotomy(a[1..], b[1..]);
      assert a == [a[0]] + a[1..] && b == [b[0]] + b[1..];
    }
  }

  /** A string is less than another if it is a proper prefix of it or has the smaller character where they
      first differ. */
  lemma {:induction false} LessAtFirstDifference(a: string, b: string, k: nat)
    requires k <= |a| && k <= |b| && a[..k] == b[..k]
    ensures k == |a| && k < |b| ==> Less(a, b)
    ensures k < |a| && k < |b| && a[k] < b[k] ==> Less(a, b)
  {
    if k > 0 {
      assert a[0] == a[..k][0] && b[0] == b[..k][0];
      assert a[1..][..k - 1] == a[..k][1..] && b[1..][..k - 1] == b[..k][1..];
      LessAtFirstDifference(a[1..], b[1..], k - 1);
    }
  }

  lemma {:induction false} Transitive(a: string, b: string, c: string)
    requires Less(a, b) && Less(b, c)
    ensures Less(a, c)
  {
    if |a| > 0 && a[0] == b[0] && b[0] == c[0] {
      Transitive(a[1..], b[1..], c[1..]);
    }
  }

  lemma AtMostIsTotalOrder()
    ensures TotalPreorder(AtMost)
    ensures forall a, b :: Tie(AtMost, a, b) ==> a == b
  {
    forall a, b ensures (AtMost(a, b) || AtMost(b, a)) && (Tie(AtMost, a, b) ==> a == b) {
      Trichotomy(a, b);
    }
    forall a, b, c ensures Chains(AtMost, a, b, c) {
      if AtMost(a, b) && AtMost(b, c) && Less(c, a) {
        Trichotomy(a, b);
        Trichotomy(b, c);
        if a != b && b != c {
          Transitive(a, b, c);
          Trichotomy(a, c);
        }
      }
    }
  }
}
