/** Canonical text stands for the value: it reads back, and it is equal for exactly the
    values that differ in nothing but member order. */
module JsonCanonical {
  import opened Options
  import opened JsStrings
  import opened KeyedLists
  import opened Utf
  import opened Json
  import opened JsonRoundTrip

  /** Equal as JSON values: arrays in order, objects by key. */
  predicate Same(v: Json, w: Json)
    decreases v
  {
    match v
    case Arr(a) => w.Arr? && |a| == |w.items| && forall i :: 0 <= i < |a| ==> Same(a[i], w.items[i])
    case Obj(a) => w.Obj? && |a| == |w.members| && forall i :: 0 <= i < |a| ==> HasSame(a[i], w.members)
    case _ => v == w
  }

  predicate HasSame(m: Member, members: seq<Member>)
    decreases m
  {
    exists j :: 0 <= j < |members| && members[j].key == m.key && Same(m.value, members[j].value)
  }

  // ----- sorting members

  lemma DistinctDecides(members: seq<Member>)
    requires DistinctKeys(members)
    ensures KeyDecides(KeyOf, members)
  {
    forall x, y | x in members && y in members && KeyOf(x) == KeyOf(y)
      ensures x == y
    {
      var i :| 0 <= i < |members| && members[i] == x;
      var j :| 0 <= j < |members| && members[j] == y;
    }
  }

  lemma DistinctByKey(members: seq<Member>)
    ensures DistinctBy(KeyOf, members) <==> DistinctKeys(members)
  {
    assert forall i :: 0 <= i < |members| ==> KeyOf(members[i]) == members[i].key;
  }

  lemma SortedMembersAreDistinct(members: seq<Member>)
    requires DistinctKeys(members)
    ensures DistinctKeys(SortBy(KeyOf, members))
  {
    DistinctByKey(members);
    DistinctByKey(SortBy(KeyOf, members));
    SortedStaysDistinct(KeyOf, members);
  }

  // ----- the normal form

  lemma {:induction false} DepthBound(members: seq<Member>, k: nat)
    ensures MembersDepth(members) <= k <==> forall i :: 0 <= i < |members| ==> Depth(members[i].value) <= k
  {
    if members != [] {
      DepthBound(members[1..], k);
      assert forall i :: 1 <= i < |members| ==> members[1..][i - 1] == members[i];
    }
  }

  lemma SameDepth(a: seq<Member>, b: seq<Member>)
    requires multiset(a) == multiset(b)
    ensures MembersDepth(a) == MembersDepth(b)
  {
    var da, db := MembersDepth(a), MembersDepth(b);
    DepthBound(a, da);
    DepthBound(b, db);
    DepthBound(a, db);
    DepthBound(b, da);
    forall i | 0 <= i < |a|
      ensures Depth(a[i].value) <= db
    {
      assert a[i] in multiset(b);
      var j :| 0 <= j < |b| && b[j] == a[i];
    }
    forall i | 0 <= i < |b|
      ensures Depth(b[i].value) <= da
    {
      assert b[i] in multiset(a);
      var j :| 0 <= j < |a| && a[j] == b[i];
    }
  }

  lemma {:induction false} NormalIsPrintable(v: Json)
    requires Printable(v)
    ensures Printable(Normal(v)) && Depth(Normal(v)) == Depth(v) && !SomeStringIsIllFormed(v)
    decreases v
  {
    match v {
      case Arr(items) =>
        forall i | 0 <= i < |items| { NormalIsPrintable(items[i]); }
        NormalItemsDepth(items);
      case Obj(members) =>
        forall i | 0 <= i < |members| { NormalIsPrintable(members[i].value); }
        NormalMembersDepth(members);
        SortedIsPrintable(NormalMembers(members));
        assert members == [] <==> NormalMembers(members) == [];
      case _ =>
    }
  }

  lemma SortedIsPrintable(members: seq<Member>)
    requires DistinctKeys(members)
    requires forall i :: 0 <= i < |members| ==> WellFormed(members[i].key) && Printable(members[i].value)
    ensures Printable(Obj(SortBy(KeyOf, members)))
    ensures MembersDepth(SortBy(KeyOf, members)) == MembersDepth(members) && |SortBy(KeyOf, members)| == |members|
  {
    var sorted := SortBy(KeyOf, members);
    SortByProperties(KeyOf, members);
    SortedMembersAreDistinct(members);
    SameDepth(members, sorted);
    forall i | 0 <= i < |sorted|
      ensures WellFormed(sorted[i].key) && Printable(sorted[i].value)
    {
      assert sorted[i] in members;
    }
  }

  lemma {:induction false} NormalItemsDepth(items: seq<Json>)
    requires forall i :: 0 <= i < |items| ==> Depth(Normal(items[i])) == Depth(items[i])
    ensures ItemsDepth(NormalItems(items)) == ItemsDepth(items)
  {
    if items != [] {
      NormalItemsDepth(items[1..]);
      assert NormalItems(items)[1..] == NormalItems(items[1..]);
    }
  }

  lemma {:induction false} NormalMembersDepth(members: seq<Member>)
    requires forall i :: 0 <= i < |members| ==> Depth(Normal(members[i].value)) == Depth(members[i].value)
    ensures MembersDepth(NormalMembers(members)) == MembersDepth(members)
  {
    if members != [] {
      NormalMembersDepth(members[1..]);
      assert NormalMembers(members)[1..] == NormalMembers(members[1..]);
    }
  }

  /** The normal form forgets the member order and nothing else. */
  lemma {:induction false} NormalIffSame(v: Json, w: Json)
    requires Printable(v) && Printable(w)
    ensures Normal(v) == Normal(w) <==> Same(v, w)
    decreases v
  {
    match v {
      case Arr(items) =>
        if w.Arr? && |items| == |w.items| {
          ArrayIffSame(v, w);
        } else if w.Arr? {
          assert |NormalItems(items)| != |NormalItems(w.items)|;
        }
      case Obj(members) =>
        if w.Obj? { ObjectIffSame(v, w); }
      case _ =>
    }
  }

  lemma ArrayIffSame(v: Json, w: Json)
    requires Printable(v) && Printable(w) && v.Arr? && w.Arr? && |v.items| == |w.items|
    ensures Normal(v) == Normal(w) <==> Same(v, w)
    decreases v, 0
  {
    hide Printable;
    PrintableParts(v);
    PrintableParts(w);
    forall i | 0 <= i < |v.items|
      ensures Normal(v.items[i]) == Normal(w.items[i]) <==> Same(v.items[i], w.items[i])
    {
      NormalIffSame(v.items[i], w.items[i]);
    }
    ArraysNormalIffSame(v.items, w.items);
  }

  lemma ObjectIffSame(v: Json, w: Json)
    requires Printable(v) && Printable(w) && v.Obj? && w.Obj?
    ensures Normal(v) == Normal(w) <==> Same(v, w)
    decreases v, 0
  {
    hide Printable, SortBy, HasSame;
    PrintableParts(v);
    PrintableParts(w);
    var a, b := v.members, w.members;
    forall i, j | 0 <= i < |a| && 0 <= j < |b|
      ensures Normal(a[i].value) == Normal(b[j].value) <==> Same(a[i].value, b[j].value)
    {
      NormalIffSame(a[i].value, b[j].value);
    }
    ObjectsNormalIffSame(a, b);
  }

  lemma ArraysNormalIffSame(a: seq<Json>, b: seq<Json>)
    requires |a| == |b| && forall i :: 0 <= i < |a| ==> (Normal(a[i]) == Normal(b[i]) <==> Same(a[i], b[i]))
    ensures NormalItems(a) == NormalItems(b) <==> forall i :: 0 <= i < |a| ==> Same(a[i], b[i])
  {
    assert forall i :: 0 <= i < |a| ==> NormalItems(a)[i] == Normal(a[i]) && NormalItems(b)[i] == Normal(b[i]);
  }

  predicate Agree(a: seq<Member>, b: seq<Member>) {
    forall i, j :: 0 <= i < |a| && 0 <= j < |b| ==>
                     (Normal(a[i].value) == Normal(b[j].value) <==> Same(a[i].value, b[j].value))
  }

  lemma ObjectsNormalIffSame(a: seq<Member>, b: seq<Member>)
    requires DistinctKeys(a) && DistinctKeys(b) && Agree(a, b)
    ensures SortBy(KeyOf, NormalMembers(a)) == SortBy(KeyOf, NormalMembers(b)) <==>
            |a| == |b| && forall i :: 0 <= i < |a| ==> HasSame(a[i], b)
  {
    hide Agree;
    if SortBy(KeyOf, NormalMembers(a)) == SortBy(KeyOf, NormalMembers(b)) { SameFromNormal(a, b); }
    if |a| == |b| && forall i :: 0 <= i < |a| ==> HasSame(a[i], b) { NormalFromSame(a, b); }
  }

  lemma SameFromNormal(a: seq<Member>, b: seq<Member>)
    requires Agree(a, b) && SortBy(KeyOf, NormalMembers(a)) == SortBy(KeyOf, NormalMembers(b))
    ensures |a| == |b| && forall i :: 0 <= i < |a| ==> HasSame(a[i], b)
  {
    var na, nb := NormalMembers(a), NormalMembers(b);
    SortByProperties(KeyOf, na);
    SortByProperties(KeyOf, nb);
    forall i | 0 <= i < |a|
      ensures HasSame(a[i], b)
    {
      assert na[i] in SortBy(KeyOf, na);
      assert na[i] in nb;
      var j :| 0 <= j < |nb| && nb[j] == na[i];
      assert b[j].key == a[i].key && Same(a[i].value, b[j].value);
    }
  }

  lemma NormalFromSame(a: seq<Member>, b: seq<Member>)
    requires DistinctKeys(a) && DistinctKeys(b) && Agree(a, b)
    requires |a| == |b| && forall i :: 0 <= i < |a| ==> HasSame(a[i], b)
    ensures SortBy(KeyOf, NormalMembers(a)) == SortBy(KeyOf, NormalMembers(b))
  {
    var na, nb := NormalMembers(a), NormalMembers(b);
    forall m | m in na
      ensures m in nb
    {
      var i :| 0 <= i < |na| && na[i] == m;
      assert HasSame(a[i], b);
      var j :| 0 <= j < |b| && b[j].key == a[i].key && Same(a[i].value, b[j].value);
      assert nb[j] == m;
    }
    DistinctByKey(na);
    InclusionIsPermutation(KeyOf, na, nb);
    DistinctDecides(na);
    SortUnique(KeyOf, na, nb);
  }

  lemma {:induction false} NormalIsIdempotent(v: Json)
    requires Printable(v)
    ensures Normal(Normal(v)) == Normal(v)
    decreases v
  {
    match v {
      case Arr(items) =>
        forall i | 0 <= i < |items| { NormalIsIdempotent(items[i]); }
        assert NormalItems(NormalItems(items)) == NormalItems(items);
      case Obj(members) =>
        var normal := NormalMembers(members);
        forall i | 0 <= i < |members|
          ensures Fixed(normal[i])
        {
          NormalIsIdempotent(members[i].value);
        }
        SortedIsNormal(normal);
      case _ =>
    }
  }

  ghost predicate Fixed(m: Member) { Normal(m.value) == m.value }

  lemma {:induction false} FixedMembers(members: seq<Member>)
    requires forall i :: 0 <= i < |members| ==> Fixed(members[i])
    ensures NormalMembers(members) == members
  {
    if members != [] {
      assert Fixed(members[0]);
      FixedMembers(members[1..]);
      assert members == [members[0]] + members[1..];
    }
  }

  lemma SortedIsNormal(members: seq<Member>)
    requires DistinctKeys(members) && forall i :: 0 <= i < |members| ==> Fixed(members[i])
    ensures SortBy(KeyOf, NormalMembers(SortBy(KeyOf, members))) == SortBy(KeyOf, members)
  {
    hide Fixed;
    var sorted := SortBy(KeyOf, members);
    SortByProperties(KeyOf, members);
    SortedMembersAreDistinct(members);
    DistinctDecides(sorted);
    forall i | 0 <= i < |sorted|
      ensures Fixed(sorted[i])
    {
      assert sorted[i] in members;
    }
    FixedMembers(sorted);
    SortOfSorted(KeyOf, sorted);
  }

  // ----- the guarantees

  /** Canonical text reads back as the value it was printed from, members sorted, exactly
      when the value nests no deeper than the reader's limit. */
  lemma CanonicalTextReadsBack(v: Json)
    requires Printable(v)
    ensures Canonicalize(v).Ok?
    ensures ReadText(Canonicalize(v).value, NESTING_LIMIT)
            == if Depth(v) <= NESTING_LIMIT then Ok(Normal(v)) else Err(NestingLimit)
    ensures Same(v, Normal(v))
  {
    TextReadsBack(v, NESTING_LIMIT);
    NormalIsPrintable(v);
    NormalIsIdempotent(v);
    NormalIffSame(v, Normal(v));
  }

  lemma TextReadsBack(v: Json, limit: nat)
    requires Printable(v)
    ensures Canonicalize(v).Ok?
    ensures ReadText(Canonicalize(v).value, limit) == if Depth(v) <= limit then Ok(Normal(v)) else Err(NestingLimit)
  {
    NormalIsPrintable(v);
    ValueReads(Normal(v), [], 0, limit);
    assert Print(Normal(v)) + [] == Print(Normal(v));
  }

  /** Two values have the same canonical text if and only if they are the same value. */
  lemma CanonicalTextIdentifies(v: Json, w: Json)
    requires Printable(v) && Printable(w)
    ensures Canonicalize(v) == Canonicalize(w) <==> Same(v, w)
  {
    NormalIsPrintable(v);
    NormalIsPrintable(w);
    NormalIffSame(v, w);
    var limit := Depth(v) + Depth(w);
    TextReadsBack(v, limit);
    TextReadsBack(w, limit);
  }

  // ----- what the reader lets through

  lemma {:induction false} ValueFromAnyText(s: JsString, depth: nat, limit: nat)
    requires ReadValue(s, depth, limit).Ok?
    ensures var v := ReadValue(s, depth, limit).value.value; Printable(v) && depth + Depth(v) <= limit
    decreases |s|, 1
  {
    var t := SkipSpace(s);
    if StartsWith(t, OPEN_OBJECT) {
      var u := SkipSpace(t[1..]);
      if !StartsWith(u, CLOSE_OBJECT) { MembersFromAnyText(u, depth + 1, limit, []); }
    } else if StartsWith(t, OPEN_ARRAY) {
      var u := SkipSpace(t[1..]);
      if !StartsWith(u, CLOSE_ARRAY) { ItemsFromAnyText(u, depth + 1, limit, []); }
    }
  }

  lemma {:induction false} ItemsFromAnyText(s: JsString, depth: nat, limit: nat, before: seq<Json>)
    requires ReadItems(s, depth, limit, before).Ok? && depth > 0
    requires forall i :: 0 <= i < |before| ==> Printable(before[i])
    requires before != [] ==> depth + ItemsDepth(before) <= limit
    ensures var v := ReadItems(s, depth, limit, before).value.value; Printable(v) && depth - 1 + Depth(v) <= limit
    decreases |s|, 2
  {
    ValueFromAnyText(s, depth, limit);
    var value := ReadValue(s, depth, limit).value;
    ItemsDepthAppend(before, value.value);
    var w := SkipSpace(value.rest);
    if StartsWith(w, COMMA) { ItemsFromAnyText(w[1..], depth, limit, before + [value.value]); }
  }

  lemma {:induction false} ItemsDepthAppend(items: seq<Json>, v: Json)
    ensures ItemsDepth(items + [v]) == var d, e := ItemsDepth(items), Depth(v); if d < e then e else d
  {
    if items != [] {
      ItemsDepthAppend(items[1..], v);
      assert (items + [v])[1..] == items[1..] + [v];
    } else {
      assert ([v])[1..] == [];
      assert items + [v] == [v];
    }
  }

  lemma {:induction false} MembersFromAnyText(s: JsString, depth: nat, limit: nat, before: seq<Member>)
    requires ReadMembers(s, depth, limit, before).Ok? && depth > 0
    requires forall i :: 0 <= i < |before| ==> WellFormed(before[i].key) && Printable(before[i].value)
    requires DistinctKeys(before) && (before != [] ==> depth + MembersDepth(before) <= limit)
    ensures var v := ReadMembers(s, depth, limit, before).value.value; Printable(v) && depth - 1 + Depth(v) <= limit
    decreases |s|, 3
  {
    hide ReadMember, SkipSpace, WellFormed, HasKey;
    MemberFromAnyText(s, depth, limit, before);
    var member := ReadMember(s, depth, limit, before).value;
    var members := before + [member.value];
    KeysStayDistinct(before, member.value);
    MembersDepthAppend(before, member.value);
    var w := SkipSpace(member.rest);
    if StartsWith(w, COMMA) { MembersFromAnyText(w[1..], depth, limit, members); }
  }

  lemma {:induction false} MemberFromAnyText(s: JsString, depth: nat, limit: nat, before: seq<Member>)
    requires ReadMember(s, depth, limit, before).Ok?
    ensures var m := ReadMember(s, depth, limit, before).value.value;
            WellFormed(m.key) && Printable(m.value) && depth + Depth(m.value) <= limit && !HasKey(before, m.key)
    decreases |s|, 2
  {
    hide ReadString, ReadValue, SkipSpace, Printable, Depth, WellFormed, HasKey;
    var t := SkipSpace(s);
    var u := SkipSpace(ReadString(t[1..]).value.rest);
    ValueFromAnyText(u[1..], depth, limit);
  }

  lemma KeysStayDistinct(before: seq<Member>, m: Member)
    requires DistinctKeys(before) && !HasKey(before, m.key)
    ensures DistinctKeys(before + [m])
  {
  }

  lemma {:induction false} MembersDepthAppend(members: seq<Member>, m: Member)
    ensures MembersDepth(members + [m]) == var d, e := MembersDepth(members), Depth(m.value); if d < e then e else d
  {
    if members != [] {
      MembersDepthAppend(members[1..], m);
      assert (members + [m])[1..] == members[1..] + [m];
    } else {
      assert ([m])[1..] == [];
      assert members + [m] == [m];
    }
  }

  /** Whatever text the reader accepts, the value it gives prints, and the canonical text of
      that value is accepted again and gives the same value. */
  lemma AcceptedTextHasCanonicalText(s: JsString)
    requires ReadText(s, NESTING_LIMIT).Ok?
    ensures var v := ReadText(s, NESTING_LIMIT).value;
            && Canonicalize(v).Ok?
            && ReadText(Canonicalize(v).value, NESTING_LIMIT) == Ok(Normal(v)) && Same(v, Normal(v))
  {
    ValueFromAnyText(s, 0, NESTING_LIMIT);
    CanonicalTextReadsBack(ReadText(s, NESTING_LIMIT).value);
  }
}
