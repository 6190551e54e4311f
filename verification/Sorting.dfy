/** Sorting a slice in place, as far as its callers can tell: the elements are arranged so that
    none is less than one before it. Which of several equal elements comes first is open. */
module Sorting {

  /** less orders all elements: it is asymmetric, and "not less" is transitive. */
  ghost predicate Orders<T(!new)>(less: (T, T) -> bool)
  {
    && (forall x, y :: less(x, y) ==> !less(y, x))
    && (forall x, y, z :: !less(x, y) && !less(y, z) ==> !less(x, z))
  }

  ghost predicate Sorted<T>(s: seq<T>, less: (T, T) -> bool)
  {
    forall i, j :: 0 <= i < j < |s| ==> !less(s[j], s[i])
  }

  /** The place of a least element from i on. */
  method Least<T(!new)>(a: array<T>, less: (T, T) -> bool, i: nat) returns (m: nat)
    requires Orders(less) && i < a.Length
    ensures i <= m < a.Length && forall k :: i <= k < a.Length ==> !less(a[k], a[m])
  {
    m := i;
    for j := i + 1 to a.Length
      invariant i <= m < a.Length && forall k :: i <= k < j ==> !less(a[k], a[m])
    {
      if less(a[j], a[m]) {
        m := j;
      }
    }
  }

  method SortSlice<T(!new)>(a: array<T>, less: (T, T) -> bool)
    requires Orders(less)
    modifies a
    ensures Sorted(a[..], less) && multiset(a[..]) == multiset(old(a[..]))
  {
    for i := 0 to a.Length
      invariant Sorted(a[..i], less)
      invariant forall p, q :: 0 <= p < i <= q < a.Length ==> !less(a[q], a[p])
      invariant multiset(a[..]) == multiset(old(a[..]))
    {
      var m := Least(a, less, i);
      Exchange(a, i, m);
    }
    assert a[..a.Length] == a[..];
  }

  method Exchange<T>(a: array<T>, i: nat, m: nat)
    requires i <= m < a.Length
    modifies a
    ensures a[i] == old(a[m]) && a[m] == old(a[i])
    ensures forall k :: 0 <= k < a.Length && k != i && k != m ==> a[k] == old(a[k])
    ensures multiset(a[..]) == multiset(old(a[..]))
  {
    a[i], a[m] := a[m], a[i];
  }

  /** The elements of the list are pairwise ordered: none are equal to the order. */
  ghost predicate Separated<T>(s: seq<T>, less: (T, T) -> bool)
  {
    forall i, j :: 0 <= i < j < |s| ==> less(s[i], s[j]) || less(s[j], s[i])
  }

  lemma MultisetMember<T>(s: seq<T>, t: seq<T>)
    requires multiset(s) == multiset(t)
    ensures |s| == |t| && forall x :: x in s <==> x in t
  {
    assert |multiset(s)| == |s| && |multiset(t)| == |t|;
    forall x
      ensures x in s <==> x in t
    {
      assert x in s <==> x in multiset(s);
      assert x in t <==> x in multiset(t);
    }
  }

  lemma SameLeast<T(!new)>(s: seq<T>, t: seq<T>, less: (T, T) -> bool)
    requires Sorted(s, less) && Sorted(t, less) && multiset(s) == multiset(t) && Separated(s, less) && s != []
    ensures t != [] && s[0] == t[0]
  {
    MultisetMember(s, t);
    assert t[0] in s && s[0] in t;
    var i :| 0 <= i < |s| && s[i] == t[0];
    var j :| 0 <= j < |t| && t[j] == s[0];
  }

  lemma SameRest<T>(s: seq<T>, t: seq<T>)
    requires s != [] && t != [] && s[0] == t[0] && multiset(s) == multiset(t)
    ensures multiset(s[1..]) == multiset(t[1..])
  {
    assert s == [s[0]] + s[1..] && t == [t[0]] + t[1..];
    assert multiset(s[1..]) == multiset(s) - multiset{s[0]};
    assert multiset(t[1..]) == multiset(t) - multiset{t[0]};
  }

  /** There is only one sorted arrangement of elements that the order separates. */
  lemma {:induction false} SortedIsUnique<T(!new)>(s: seq<T>, t: seq<T>, less: (T, T) -> bool)
    requires Sorted(s, less) && Sorted(t, less) && multiset(s) == multiset(t) && Separated(s, less)
    ensures s == t
    decreases |s|
  {
    if s == [] {
      MultisetMember(s, t);
    } else {
      SameLeast(s, t, less);
      SameRest(s, t);
      SortedIsUnique(s[1..], t[1..], less);
      assert s == [s[0]] + s[1..] && t == [t[0]] + t[1..];
    }
  }

  /** No element occurs twice and any two are ordered. */
  ghost predicate SeparatedBag<T>(m: multiset<T>, less: (T, T) -> bool)
  {
    && (forall x :: x in m ==> m[x] == 1)
    && (forall x, y :: x in m && y in m && x != y ==> less(x, y) || less(y, x))
  }

  lemma SeparatedFromBag<T>(s: seq<T>, less: (T, T) -> bool)
    requires SeparatedBag(multiset(s), less)
    ensures Separated(s, less)
  {
    forall i, j | 0 <= i < j < |s|
      ensures less(s[i], s[j]) || less(s[j], s[i])
    {
      assert s == s[..j] + s[j..];
      assert s[i] in s[..j] && s[j] in s[j..];
      assert s[i] in multiset(s) && s[j] in multiset(s);
      assert s[i] != s[j];
    }
  }

  lemma {:induction false} BagFromSeparated<T(!new)>(s: seq<T>, less: (T, T) -> bool)
    requires Orders(less) && Separated(s, less)
    ensures SeparatedBag(multiset(s), less)
    decreases |s|
  {
    if s != [] {
      var rest := s[1..];
      assert s == [s[0]] + rest;
      BagFromSeparated(rest, less);
      forall x | x in multiset(rest)
        ensures less(x, s[0]) || less(s[0], x)
      {
        var i :| 0 <= i < |rest| && rest[i] == x;
        assert s[i + 1] == x;
      }
    }
  }

  lemma SeparatedWithOne<T>(m: multiset<T>, x: T, less: (T, T) -> bool)
    requires SeparatedBag(m, less) && x !in m && forall y :: y in m ==> less(x, y) || less(y, x)
    ensures SeparatedBag(multiset{x} + m, less)
  {
  }

  /** Two sorted lists of the same separated elements are the same list. */
  lemma SortedBagsAgree<T(!new)>(s: seq<T>, t: seq<T>, less: (T, T) -> bool)
    requires Sorted(s, less) && Sorted(t, less) && multiset(s) == multiset(t) && SeparatedBag(multiset(s), less)
    ensures s == t
  {
    SeparatedFromBag(s, less);
    SortedIsUnique(s, t, less);
  }

  function Map<T, U>(s: seq<T>, f: T -> U): seq<U>
  {
    seq(|s|, i requires 0 <= i < |s| => f(s[i]))
  }

  function Without<T>(s: seq<T>, j: nat): seq<T>
    requires j < |s|
  {
    s[..j] + s[j + 1..]
  }

  lemma WithoutOne<T>(s: seq<T>, j: nat)
    requires j < |s|
    ensures multiset(s) == multiset(Without(s, j)) + multiset{s[j]}
    ensures multiset(Without(s, j)) == multiset(s) - multiset{s[j]}
  {
    assert s == s[..j] + ([s[j]] + s[j + 1..]);
  }

  lemma MapWithout<T, U>(s: seq<T>, j: nat, f: T -> U)
    requires j < |s|
    ensures Map(Without(s, j), f) == Without(Map(s, f), j)
  {
  }

  /** Mapping a permutation gives a permutation of what was mapped. */
  lemma {:induction false} MapPermutes<T, U>(s: seq<T>, t: seq<T>, f: T -> U)
    requires multiset(s) == multiset(t)
    ensures multiset(Map(s, f)) == multiset(Map(t, f))
    decreases |s|
  {
    MultisetMember(s, t);
    if s != [] {
      assert s[0] in t;
      var j :| 0 <= j < |t| && t[j] == s[0];
      WithoutOne(s, 0);
      WithoutOne(t, j);
      MapPermutes(Without(s, 0), Without(t, j), f);
      MapWithout(s, 0, f);
      MapWithout(t, j, f);
      WithoutOne(Map(s, f), 0);
      WithoutOne(Map(t, f), j);
    }
  }

  // ----- the orders used -----

  /** Go's comparison of strings. */
  predicate StringLess(a: string, b: string)
  {
    if b == "" then false
    else if a == "" then true
    else a[0] < b[0] || (a[0] == b[0] && StringLess(a[1..], b[1..]))
  }

  lemma {:induction false} StringLessAsymmetric(a: string, b: string)
    ensures !(StringLess(a, b) && StringLess(b, a))
    ensures StringLess(a, b) || StringLess(b, a) <==> a != b
  {
    if a != "" && b != "" {
      StringLessAsymmetric(a[1..], b[1..]);
      assert a == [a[0]] + a[1..] && b == [b[0]] + b[1..];
    }
  }

  lemma {:induction false} StringLessTransitive(a: string, b: string, c: string)
    requires !StringLess(a, b) && !StringLess(b, c)
    ensures !StringLess(a, c)
  {
    if a != "" && b != "" && c != "" && a[0] == b[0] == c[0] {
      StringLessTransitive(a[1..], b[1..], c[1..]);
    }
  }

  /** The first text is a proper beginning of the second, or less where they first differ. */
  ghost predicate ComesBefore(a: string, b: string)
  {
    exists n :: 0 <= n < |b| && n <= |a| && a[..n] == b[..n] && (n == |a| || a[n] < b[n])
  }

  lemma {:induction false} StringLessIsLexical(a: string, b: string)
    ensures StringLess(a, b) <==> ComesBefore(a, b)
  {
    if a != "" && b != "" {
      StringLessIsLexical(a[1..], b[1..]);
      if ComesBefore(a, b) {
        var n :| 0 <= n < |b| && n <= |a| && a[..n] == b[..n] && (n == |a| || a[n] < b[n]);
        if n > 0 {
          assert a[0] == a[..n][0] == b[..n][0] == b[0];
          assert a[1..][..n - 1] == a[..n][1..] && b[1..][..n - 1] == b[..n][1..];
          assert n - 1 == |a[1..]| || a[1..][n - 1] < b[1..][n - 1];
          assert ComesBefore(a[1..], b[1..]);
        }
      }
      if a[0] == b[0] && ComesBefore(a[1..], b[1..]) {
        var m :| 0 <= m < |b[1..]| && m <= |a[1..]| && a[1..][..m] == b[1..][..m] &&
          (m == |a[1..]| || a[1..][m] < b[1..][m]);
        assert a[..m + 1] == [a[0]] + a[1..][..m] && b[..m + 1] == [b[0]] + b[1..][..m];
        assert m + 1 == |a| || a[m + 1] < b[m + 1];
      }
      if a[0] < b[0] {
        assert a[..0] == b[..0];
      }
    } else if a == "" && b != "" {
      assert a[..0] == b[..0];
    }
  }

  lemma StringLessOrders()
    ensures Orders(StringLess)
  {
    forall a, b
      ensures StringLess(a, b) ==> !StringLess(b, a)
    {
      StringLessAsymmetric(a, b);
    }
    forall a, b, c | !StringLess(a, b) && !StringLess(b, c)
      ensures !StringLess(a, c)
    {
      StringLessTransitive(a, b, c);
    }
  }
}
