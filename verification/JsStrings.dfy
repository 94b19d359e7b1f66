/** Strings as the program sees them: sequences of UTF-16 code units, compared
    unit by unit. `SortBy` is the stable sort every canonical form relies on;
    `SortUnique` says when the written order cannot be seen in its result. */
module JsStrings {

  type CodeUnit = c: int | 0 <= c < 0x1_0000

  type JsString = seq<CodeUnit>

  /** ASCII text as code units. */
  function Js(text: string): (s: JsString)
    ensures |s| == |text|
  {
    seq(|text|, i requires 0 <= i < |text| => if text[i] as int < 0x80 then text[i] as int else 0x3F)
  }

  // ----- order

  predicate Less(a: JsString, b: JsString) {
    b != [] && (a == [] || a[0] < b[0] || (a[0] == b[0] && Less(a[1..], b[1..])))
  }

  lemma {:induction false} LessIrreflexive(a: JsString)
    ensures !Less(a, a)
  {
    if a != [] { LessIrreflexive(a[1..]); }
  }

  lemma {:induction false} LessTransitive(a: JsString, b: JsString, c: JsString)
    requires Less(a, b) && Less(b, c)
    ensures Less(a, c)
  {
    if a != [] && a[0] == b[0] && b[0] == c[0] { LessTransitive(a[1..], b[1..], c[1..]); }
  }

  lemma {:induction false} LessTotal(a: JsString, b: JsString)
    ensures Less(a, b) || Less(b, a) || a == b
  {
    if a != [] && b != [] && a[0] == b[0] {
      LessTotal(a[1..], b[1..]);
      if a[1..] == b[1..] {
        assert a == [a[0]] + a[1..] && b == [b[0]] + b[1..];
      }
    }
  }

  // ----- sorting by a key

  predicate SortedBy<T>(key: T -> JsString, s: seq<T>) {
    forall i, j :: 0 <= i < j < |s| ==> !Less(key(s[j]), key(s[i]))
  }

  /** Elements with equal keys are equal: the key decides the element. */
  ghost predicate KeyDecides<T>(key: T -> JsString, s: seq<T>) {
    forall x, y :: x in s && y in s && key(x) == key(y) ==> x == y
  }

  function InsertBy<T>(key: T -> JsString, x: T, s: seq<T>): seq<T> {
    if s == [] || Less(key(x), key(s[0])) then [x] + s else [s[0]] + InsertBy(key, x, s[1..])
  }

  function SortBy<T>(key: T -> JsString, s: seq<T>): seq<T> {
    if s == [] then [] else InsertBy(key, s[|s| - 1], SortBy(key, s[..|s| - 1]))
  }

  lemma {:induction false} InsertByProperties<T>(key: T -> JsString, x: T, s: seq<T>)
    requires SortedBy(key, s)
    ensures SortedBy(key, InsertBy(key, x, s))
    ensures multiset(InsertBy(key, x, s)) == multiset(s) + multiset{x}
  {
    if s == [] {
    } else if Less(key(x), key(s[0])) {
      forall j | 0 < j < |s| + 1
        ensures !Less(key(([x] + s)[j]), key(x))
      {
        var y := s[j - 1];
        if Less(key(y), key(x)) {
          LessTransitive(key(y), key(x), key(s[0]));
          LessIrreflexive(key(s[0]));
        }
      }
    } else {
      InsertByProperties(key, x, s[1..]);
      var rest := InsertBy(key, x, s[1..]);
      assert s == [s[0]] + s[1..];
      forall j | 0 <= j < |rest|
        ensures !Less(key(rest[j]), key(s[0]))
      {
        assert rest[j] in multiset(rest);
        if rest[j] != x {
          assert rest[j] in multiset(s[1..]);
          var k :| 0 <= k < |s[1..]| && s[1..][k] == rest[j];
          assert s[k + 1] == rest[j];
        }
      }
    }
  }

  lemma {:induction false} SortBySorts<T>(key: T -> JsString, s: seq<T>)
    ensures SortedBy(key, SortBy(key, s)) && multiset(SortBy(key, s)) == multiset(s)
  {
    hide SortedBy, InsertBy;
    if s == [] {
      NothingToSort(key);
    } else {
      SortBySorts(key, s[..|s| - 1]);
      InsertByProperties(key, s[|s| - 1], SortBy(key, s[..|s| - 1]));
      assert s == s[..|s| - 1] + [s[|s| - 1]];
    }
  }

  lemma NothingToSort<T>(key: T -> JsString)
    ensures SortedBy(key, [])
  {
  }

  lemma PermutedMembers<T>(a: seq<T>, b: seq<T>)
    requires multiset(a) == multiset(b)
    ensures |a| == |b| && forall x :: x in a <==> x in b
  {
    assert |multiset(a)| == |multiset(b)|;
    forall x
      ensures x in a <==> x in b
    {
      assert x in a <==> x in multiset(a);
    }
  }

  lemma SortByProperties<T>(key: T -> JsString, s: seq<T>)
    ensures SortedBy(key, SortBy(key, s))
    ensures multiset(SortBy(key, s)) == multiset(s)
    ensures |SortBy(key, s)| == |s|
    ensures forall x :: x in SortBy(key, s) <==> x in s
  {
    SortBySorts(key, s);
    PermutedMembers(SortBy(key, s), s);
  }

  lemma FirstIsLeast<T>(key: T -> JsString, s: seq<T>, x: T)
    requires SortedBy(key, s) && x in s
    ensures !Less(key(x), key(s[0]))
  {
    LessIrreflexive(key(s[0]));
  }

  lemma WithoutFirst<T>(s: seq<T>)
    requires s != []
    ensures s == [s[0]] + s[1..] && multiset(s[1..]) == multiset(s) - multiset{s[0]} && s[0] in s
  {
    assert s == [s[0]] + s[1..];
  }

  lemma {:induction false} SortedUnique<T>(key: T -> JsString, a: seq<T>, b: seq<T>)
    requires SortedBy(key, a) && SortedBy(key, b) && KeyDecides(key, a)
    requires multiset(a) == multiset(b)
    ensures a == b
  {
    hide Less;
    assert |multiset(a)| == |multiset(b)|;
    if a != [] {
      WithoutFirst(a);
      WithoutFirst(b);
      assert a[0] in multiset(b) && b[0] in multiset(a);
      FirstIsLeast(key, b, a[0]);
      FirstIsLeast(key, a, b[0]);
      LessTotal(key(a[0]), key(b[0]));
      SortedUnique(key, a[1..], b[1..]);
    }
  }

  /** Sorting forgets the written order exactly when the key decides the element. */
  lemma SortUnique<T>(key: T -> JsString, a: seq<T>, b: seq<T>)
    requires multiset(a) == multiset(b) && KeyDecides(key, a)
    ensures SortBy(key, a) == SortBy(key, b)
  {
    SortByProperties(key, a);
    SortByProperties(key, b);
    assert KeyDecides(key, SortBy(key, a));
    SortedUnique(key, SortBy(key, a), SortBy(key, b));
  }

  lemma SortOfSorted<T>(key: T -> JsString, a: seq<T>)
    requires SortedBy(key, a) && KeyDecides(key, a)
    ensures SortBy(key, a) == a
  {
    SortByProperties(key, a);
    SortedUnique(key, a, SortBy(key, a));
  }

  lemma TwoPositions<T>(s: seq<T>, i: nat, j: nat)
    requires i < j < |s| && s[i] == s[j]
    ensures multiset(s)[s[i]] >= 2
  {
    assert s == s[..i] + [s[i]] + s[i + 1..j] + [s[i]] + s[j + 1..];
  }

  // ----- strings themselves

  function Self(s: JsString): JsString { s }

  function SortStrings(s: seq<JsString>): seq<JsString> { SortBy(Self, s) }

  predicate StrictlySorted(s: seq<JsString>) {
    forall i, j :: 0 <= i < j < |s| ==> Less(s[i], s[j])
  }

  lemma SortStringsUnique(a: seq<JsString>, b: seq<JsString>)
    requires multiset(a) == multiset(b)
    ensures SortStrings(a) == SortStrings(b)
  {
    SortUnique(Self, a, b);
  }

  lemma SortStringsIdempotent(a: seq<JsString>)
    ensures SortStrings(SortStrings(a)) == SortStrings(a)
  {
    SortByProperties(Self, a);
    SortOfSorted(Self, SortBy(Self, a));
  }

  /** A duplicate-free sorted list is determined by the set it lists. */
  lemma {:induction false} StrictlySortedUnique(a: seq<JsString>, b: seq<JsString>)
    requires StrictlySorted(a) && StrictlySorted(b)
    requires forall x :: x in a <==> x in b
    ensures a == b
  {
    assert |b| > 0 ==> b[0] in b;
    if a != [] {
      assert a[0] in b;
      assert b[0] in a;
      var i :| 0 <= i < |b| && b[i] == a[0];
      var j :| 0 <= j < |a| && a[j] == b[0];
      if i > 0 && j > 0 {
        assert Less(b[0], a[0]) && Less(a[0], b[0]);
        LessTransitive(a[0], b[0], a[0]);
        LessIrreflexive(a[0]);
      }
      assert a[0] == b[0];
      forall x
        ensures x in a[1..] <==> x in b[1..]
      {
        LessIrreflexive(a[0]);
        assert forall k :: 0 < k < |a| ==> a[k] != a[0];
        assert forall k :: 0 < k < |b| ==> b[k] != b[0];
        assert x in a <==> x == a[0] || x in a[1..];
        assert x in b <==> x == b[0] || x in b[1..];
      }
      StrictlySortedUnique(a[1..], b[1..]);
      assert a == [a[0]] + a[1..] && b == [b[0]] + b[1..];
    }
  }
}
