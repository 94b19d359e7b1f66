/** Lists of entries with a key each: when two of them are the same up to order. */
module KeyedLists {
  import opened JsStrings

  predicate DistinctBy<T(!new)>(key: T -> JsString, s: seq<T>) {
    forall i, j :: 0 <= i < j < |s| ==> key(s[i]) != key(s[j])
  }

  ghost predicate Once<T(!new)>(s: seq<T>) { forall x :: multiset(s)[x] <= 1 }

  lemma {:induction false} DistinctMeansOnce<T(!new)>(key: T -> JsString, s: seq<T>)
    requires DistinctBy(key, s)
    ensures Once(s) && KeyDecides(key, s)
  {
    if s != [] {
      assert DistinctBy(key, s[1..]);
      DistinctMeansOnce(key, s[1..]);
      assert s == [s[0]] + s[1..];
      assert forall y :: y in s[1..] ==> key(y) != key(s[0]);
    }
  }

  lemma OnceMeansDistinct<T(!new)>(key: T -> JsString, s: seq<T>)
    requires Once(s) && KeyDecides(key, s)
    ensures DistinctBy(key, s)
  {
    forall i, j | 0 <= i < j < |s|
      ensures key(s[i]) != key(s[j])
    {
      if key(s[i]) == key(s[j]) {
        assert s[i] in s && s[j] in s;
        TwoPositions(s, i, j);
      }
    }
  }

  lemma PermutedStaysDistinct<T(!new)>(key: T -> JsString, a: seq<T>, b: seq<T>)
    requires multiset(a) == multiset(b) && DistinctBy(key, a)
    ensures DistinctBy(key, b)
  {
    DistinctMeansOnce(key, a);
    assert forall x :: x in b <==> x in multiset(b);
    assert forall x :: x in a <==> x in multiset(a);
    OnceMeansDistinct(key, b);
  }

  /** Sorted by distinct keys, two lists coincide exactly when they are permutations. */
  lemma SortedIffPermuted<T(!new)>(key: T -> JsString, a: seq<T>, b: seq<T>)
    requires DistinctBy(key, a)
    ensures SortBy(key, a) == SortBy(key, b) <==> multiset(a) == multiset(b)
  {
    SortByProperties(key, a);
    SortByProperties(key, b);
    if multiset(a) == multiset(b) {
      DistinctMeansOnce(key, a);
      SortUnique(key, a, b);
    }
  }

  lemma SortedStaysDistinct<T(!new)>(key: T -> JsString, s: seq<T>)
    ensures DistinctBy(key, SortBy(key, s)) <==> DistinctBy(key, s)
    ensures DistinctBy(key, s) ==> SortBy(key, SortBy(key, s)) == SortBy(key, s)
  {
    SortByProperties(key, s);
    if DistinctBy(key, s) {
      PermutedStaysDistinct(key, s, SortBy(key, s));
      DistinctMeansOnce(key, SortBy(key, s));
      SortOfSorted(key, SortBy(key, s));
    }
    if DistinctBy(key, SortBy(key, s)) { PermutedStaysDistinct(key, SortBy(key, s), s); }
  }

  /** Distinct keys, equally many entries, one list inside the other: the same entries. */
  lemma {:induction false} InclusionIsPermutation<T(!new)>(key: T -> JsString, a: seq<T>, b: seq<T>)
    requires DistinctBy(key, a) && |a| == |b| && forall x :: x in a ==> x in b
    ensures multiset(a) == multiset(b)
  {
    if a != [] {
      assert a[0] in b;
      var j :| 0 <= j < |b| && b[j] == a[0];
      var less := b[..j] + b[j + 1..];
      assert b == b[..j] + [a[0]] + b[j + 1..];
      assert a == [a[0]] + a[1..];
      assert DistinctBy(key, a[1..]);
      forall x | x in a[1..]
        ensures x in less
      {
        assert x in a && x in b && x != a[0];
        var k :| 0 <= k < |b| && b[k] == x;
        if k < j { assert less[k] == x; } else if k > j { assert less[k - 1] == x; }
      }
      InclusionIsPermutation(key, a[1..], less);
    }
  }

  // ----- lists whose entries have a normal form of their own

  function MapAll<T, U>(f: T -> U, s: seq<T>): (r: seq<U>)
    ensures |r| == |s| && forall i :: 0 <= i < |s| ==> r[i] == f(s[i])
  {
    seq(|s|, i requires 0 <= i < |s| => f(s[i]))
  }

  ghost predicate KeepsKey<T(!new)>(key: T -> JsString, normal: T -> T) { forall x :: key(normal(x)) == key(x) }

  /** Equally many entries, and each has its counterpart. */
  ghost predicate Matches<T(!new)>(same: (T, T) -> bool, a: seq<T>, b: seq<T>) {
    |a| == |b| && forall i :: 0 <= i < |a| ==> HasMatch(same, a[i], b)
  }

  ghost predicate HasMatch<T(!new)>(same: (T, T) -> bool, x: T, b: seq<T>) { exists j :: 0 <= j < |b| && same(x, b[j]) }

  lemma MappedMembers<T(!new)>(normal: T -> T, s: seq<T>)
    ensures forall y :: y in MapAll(normal, s) <==> exists x :: x in s && normal(x) == y
  {
    var r := MapAll(normal, s);
    forall y | y in r
      ensures exists x :: x in s && normal(x) == y
    {
      var i :| 0 <= i < |r| && r[i] == y;
      assert s[i] in s;
    }
    forall x | x in s
      ensures normal(x) in r
    {
      var i :| 0 <= i < |s| && s[i] == x;
      assert r[i] == normal(x);
    }
  }

  lemma MappedDistinct<T(!new)>(key: T -> JsString, normal: T -> T, s: seq<T>)
    requires KeepsKey(key, normal)
    ensures DistinctBy(key, MapAll(normal, s)) <==> DistinctBy(key, s)
  {
    assert forall i :: 0 <= i < |s| ==> key(MapAll(normal, s)[i]) == key(s[i]);
  }

  /** Sorted and normalised, two lists coincide exactly when each entry of one has its
      counterpart in the other. */
  lemma SectionIffMatches<T(!new)>(key: T -> JsString, normal: T -> T, same: (T, T) -> bool, a: seq<T>, b: seq<T>)
    requires KeepsKey(key, normal) && DistinctBy(key, a)
    requires forall x, y :: x in a && y in b ==> (normal(x) == normal(y) <==> same(x, y))
    ensures SortBy(key, MapAll(normal, a)) == SortBy(key, MapAll(normal, b)) <==> Matches(same, a, b)
  {
    var na, nb := MapAll(normal, a), MapAll(normal, b);
    MappedDistinct(key, normal, a);
    SortedIffPermuted(key, na, nb);
    if multiset(na) == multiset(nb) {
      assert |multiset(na)| == |multiset(nb)|;
      forall i | 0 <= i < |a|
        ensures HasMatch(same, a[i], b)
      {
        assert na[i] in multiset(nb);
        var j :| 0 <= j < |nb| && nb[j] == na[i];
        assert a[i] in a && b[j] in b;
      }
    }
    if Matches(same, a, b) {
      forall x | x in na
        ensures x in nb
      {
        var i :| 0 <= i < |na| && na[i] == x;
        assert HasMatch(same, a[i], b);
        var j :| 0 <= j < |b| && same(a[i], b[j]);
        assert a[i] in a && b[j] in b && nb[j] == x;
      }
      InclusionIsPermutation(key, na, nb);
    }
  }

  /** Sorting and normalising what is sorted and normalised changes nothing. */
  lemma SectionIsFixed<T(!new)>(key: T -> JsString, normal: T -> T, s: seq<T>)
    requires KeepsKey(key, normal) && DistinctBy(key, s) && forall x :: x in s ==> normal(normal(x)) == normal(x)
    ensures var r := SortBy(key, MapAll(normal, s)); MapAll(normal, r) == r && SortBy(key, r) == r
  {
    var r := SortBy(key, MapAll(normal, s));
    SectionMembers(key, normal, s);
    assert forall i :: 0 <= i < |r| ==> r[i] in r && normal(r[i]) == r[i];
    MappedDistinct(key, normal, s);
    SortedStaysDistinct(key, MapAll(normal, s));
  }

  /** The members of a sorted, normalised list are the normal forms of the members. */
  lemma SectionMembers<T(!new)>(key: T -> JsString, normal: T -> T, s: seq<T>)
    requires KeepsKey(key, normal)
    ensures forall y :: y in SortBy(key, MapAll(normal, s)) <==> exists x :: x in s && normal(x) == y
    ensures DistinctBy(key, SortBy(key, MapAll(normal, s))) <==> DistinctBy(key, s)
    ensures |SortBy(key, MapAll(normal, s))| == |s|
  {
    var r := MapAll(normal, s);
    SortByProperties(key, r);
    SortedStaysDistinct(key, r);
    MappedDistinct(key, normal, s);
    MappedMembers(normal, s);
  }
}
