/** The recursive data schema of a manifest: what is accepted, its normal form, and the proof
    that the normal form forgets written order and nothing else. */
module ManifestSchemas {
  import opened Options
  import opened JsStrings
  import opened Decimal
  import opened KeyedLists
  import opened Utf

  datatype Property = Property(name: JsString, schema: Schema)

  datatype Schema =
    | TextSchema(minLength: Option<int>, maxLength: Option<int>)
    | NumberSchema(integer: bool, minimum: Option<int>, maximum: Option<int>)
    | BooleanSchema
    | EnumSchema(values: seq<JsString>)
    | ArraySchema(items: Schema, minItems: Option<int>, maxItems: Option<int>)
    | ObjectSchema(properties: seq<Property>, required: Option<seq<JsString>>)

  const MAX_DEPTH: nat := 4
  const MAX_NODES: nat := 256
  const MAX_PROPERTIES: nat := 64
  const MAX_ENUM_VALUES: nat := 64
  const MAX_ENUM_LENGTH: nat := 128
  const MAX_STRING_LENGTH: int := 65_536
  const MAX_ARRAY_ITEMS: int := 10_000

  // ----- duplicate-free lists

  predicate Distinct(s: seq<JsString>) { forall i, j :: 0 <= i < j < |s| ==> s[i] != s[j] }

  function SortOption(s: Option<seq<JsString>>): Option<seq<JsString>> { if s.None? then None else Some(SortStrings(s.value)) }

  /** The same entries, in any order. */
  ghost predicate SameEntries(a: seq<JsString>, b: seq<JsString>) { multiset(a) == multiset(b) }

  ghost predicate SameOption(a: Option<seq<JsString>>, b: Option<seq<JsString>>) {
    a.Some? == b.Some? && (a.Some? ==> SameEntries(a.value, b.value))
  }

  lemma SortedIffSame(a: seq<JsString>, b: seq<JsString>)
    ensures SortStrings(a) == SortStrings(b) <==> SameEntries(a, b)
  {
    SortByProperties(Self, a);
    SortByProperties(Self, b);
    if SameEntries(a, b) { SortStringsUnique(a, b); }
  }

  lemma SortedOptionIffSame(a: Option<seq<JsString>>, b: Option<seq<JsString>>)
    ensures SortOption(a) == SortOption(b) <==> SameOption(a, b)
  {
    if a.Some? && b.Some? { SortedIffSame(a.value, b.value); }
  }

  lemma {:induction false} DistinctIffCounts(s: seq<JsString>)
    ensures Distinct(s) <==> forall x :: multiset(s)[x] <= 1
  {
    if s != [] {
      DistinctIffCounts(s[1..]);
      assert s == [s[0]] + s[1..];
      if Distinct(s) {
        assert Distinct(s[1..]);
        assert s[0] !in s[1..];
      }
      if !Distinct(s) {
        var i, j :| 0 <= i < j < |s| && s[i] == s[j];
        TwoPositions(s, i, j);
      }
    }
  }

  lemma SortedList(s: seq<JsString>)
    ensures var r := SortStrings(s);
            |r| == |s| && SameEntries(r, s) && (Distinct(r) <==> Distinct(s)) && SortStrings(r) == r && forall x :: x in r <==> x in s
  {
    SortByProperties(Self, s);
    SortStringsIdempotent(s);
    DistinctIffCounts(s);
    DistinctIffCounts(SortStrings(s));
  }

  // ----- what is accepted

  predicate Within(v: Option<int>, low: int, high: int) { v.Some? ==> low <= v.value <= high }

  predicate InOrder(a: Option<int>, b: Option<int>) { a.Some? && b.Some? ==> a.value <= b.value }

  predicate Alphabetic(c: CodeUnit) { 0x41 <= c <= 0x5A || 0x61 <= c <= 0x7A }

  predicate NamePart(c: CodeUnit) { Alphabetic(c) || 0x30 <= c <= 0x39 || c == 0x5F || c == 0x2D }

  predicate PropertyNameOk(name: JsString) {
    && 1 <= |name| <= 64 && Alphabetic(name[0]) && (forall i :: 1 <= i < |name| ==> NamePart(name[i]))
    && name !in {Js("__proto__"), Js("constructor"), Js("prototype")}
  }

  predicate EnumValueOk(value: JsString) { 1 <= |value| <= MAX_ENUM_LENGTH && 0 !in value && WellFormed(value) }

  function NameOf(p: Property): JsString { p.name }

  function Names(properties: seq<Property>): (r: seq<JsString>)
    ensures |r| == |properties| && forall i :: 0 <= i < |r| ==> r[i] == properties[i].name
  {
    seq(|properties|, i requires 0 <= i < |properties| => properties[i].name)
  }

  /** Every check but the count of nodes; the root is at depth 1. */
  predicate WellShaped(s: Schema, depth: nat)
    decreases s
  {
    depth <= MAX_DEPTH
    && match s
       case TextSchema(low, high) =>
         Within(low, 0, MAX_STRING_LENGTH) && Within(high, 0, MAX_STRING_LENGTH) && InOrder(low, high)
       case NumberSchema(integer, low, high) =>
         && (integer ==> Within(low, -MAX_SAFE_INTEGER, MAX_SAFE_INTEGER) && Within(high, -MAX_SAFE_INTEGER, MAX_SAFE_INTEGER))
         && InOrder(low, high)
       case BooleanSchema => true
       case EnumSchema(values) =>
         1 <= |values| <= MAX_ENUM_VALUES && (forall v :: v in values ==> EnumValueOk(v)) && Distinct(values)
       case ArraySchema(items, low, high) =>
         && Within(low, 0, MAX_ARRAY_ITEMS) && Within(high, 0, MAX_ARRAY_ITEMS) && InOrder(low, high)
         && WellShaped(items, depth + 1)
       case ObjectSchema(properties, required) =>
         && 1 <= |properties| <= MAX_PROPERTIES && Distinct(Names(properties))
         && (forall i :: 0 <= i < |properties| ==> PropertyNameOk(properties[i].name) && WellShaped(properties[i].schema, depth + 1))
         && RequiredOk(properties, required)
  }

  predicate RequiredOk(properties: seq<Property>, required: Option<seq<JsString>>) {
    required.Some? ==>
      required.value != [] && Distinct(required.value) && forall r :: r in required.value ==> r in Names(properties)
  }

  function Nodes(s: Schema): nat
    decreases s
  {
    match s
    case ArraySchema(items, _, _) => 1 + Nodes(items)
    case ObjectSchema(properties, _) => 1 + PropertyNodes(properties)
    case _ => 1
  }

  function PropertyNodes(properties: seq<Property>): nat {
    if properties == [] then 0 else Nodes(properties[0].schema) + PropertyNodes(properties[1..])
  }

  predicate Accepts(s: Schema) { WellShaped(s, 1) && Nodes(s) <= MAX_NODES }

  // ----- the normal form

  function Normal(s: Schema): Schema
    decreases s
  {
    match s
    case EnumSchema(values) => EnumSchema(SortStrings(values))
    case ArraySchema(items, low, high) => ArraySchema(Normal(items), low, high)
    case ObjectSchema(properties, required) =>
      ObjectSchema(SortBy(NameOf, NormalProperties(properties)), SortOption(required))
    case _ => s
  }

  function NormalProperties(properties: seq<Property>): (r: seq<Property>)
    ensures |r| == |properties|
    ensures forall i :: 0 <= i < |r| ==> r[i] == Property(properties[i].name, Normal(properties[i].schema))
  {
    if properties == [] then []
    else [Property(properties[0].name, Normal(properties[0].schema))] + NormalProperties(properties[1..])
  }

  /** The same schema, with sets and properties written in any order. */
  ghost predicate Same(a: Schema, b: Schema)
    decreases a
  {
    match a
    case EnumSchema(values) => b.EnumSchema? && SameEntries(values, b.values)
    case ArraySchema(items, low, high) => b.ArraySchema? && Same(items, b.items) && low == b.minItems && high == b.maxItems
    case ObjectSchema(properties, required) =>
      && b.ObjectSchema? && SameOption(required, b.required) && |properties| == |b.properties|
      && forall i :: 0 <= i < |properties| ==> HasSame(properties[i], b.properties)
    case _ => a == b
  }

  ghost predicate HasSame(p: Property, list: seq<Property>)
    decreases p
  {
    exists j :: 0 <= j < |list| && p.name == list[j].name && Same(p.schema, list[j].schema)
  }

  // ----- the normal form forgets written order and nothing else

  lemma NamesDistinct(properties: seq<Property>)
    ensures Distinct(Names(properties)) <==> DistinctBy(NameOf, properties)
  {
    assert forall i :: 0 <= i < |properties| ==> Names(properties)[i] == NameOf(properties[i]);
  }

  /** The schemas of two property lists agree in normal form exactly when they are the same. */
  ghost predicate Agree(a: seq<Property>, b: seq<Property>) {
    forall i, j :: 0 <= i < |a| && 0 <= j < |b| ==> (Normal(a[i].schema) == Normal(b[j].schema) <==> Same(a[i].schema, b[j].schema))
  }

  lemma NormalKeepsNames(properties: seq<Property>)
    ensures Names(NormalProperties(properties)) == Names(properties)
    ensures DistinctBy(NameOf, NormalProperties(properties)) <==> DistinctBy(NameOf, properties)
  {
    hide Normal, Distinct, DistinctBy;
    NamesDistinct(properties);
    NamesDistinct(NormalProperties(properties));
  }

  lemma PropertiesNormalIffSame(a: seq<Property>, b: seq<Property>)
    requires DistinctBy(NameOf, a) && Agree(a, b)
    ensures SortBy(NameOf, NormalProperties(a)) == SortBy(NameOf, NormalProperties(b)) <==>
            |a| == |b| && forall i :: 0 <= i < |a| ==> HasSame(a[i], b)
  {
    var na, nb := NormalProperties(a), NormalProperties(b);
    NormalKeepsNames(a);
    SortedIffPermuted(NameOf, na, nb);
    if multiset(na) == multiset(nb) {
      assert |multiset(na)| == |multiset(nb)|;
      forall i | 0 <= i < |a|
        ensures HasSame(a[i], b)
      {
        assert na[i] in multiset(nb);
        var j :| 0 <= j < |nb| && nb[j] == na[i];
        assert a[i].name == b[j].name && Same(a[i].schema, b[j].schema);
      }
    }
    if |a| == |b| && forall i :: 0 <= i < |a| ==> HasSame(a[i], b) {
      forall x | x in na
        ensures x in nb
      {
        var i :| 0 <= i < |na| && na[i] == x;
        assert HasSame(a[i], b);
        var j :| 0 <= j < |b| && a[i].name == b[j].name && Same(a[i].schema, b[j].schema);
        assert nb[j] == x;
      }
      InclusionIsPermutation(NameOf, na, nb);
    }
  }

  lemma {:induction false} NormalIffSame(a: Schema, b: Schema, depth: nat)
    requires WellShaped(a, depth)
    ensures Normal(a) == Normal(b) <==> Same(a, b)
    decreases a
  {
    match a {
      case EnumSchema(values) =>
        if b.EnumSchema? { SortedIffSame(values, b.values); }
      case ArraySchema(items, _, _) =>
        if b.ArraySchema? { NormalIffSame(items, b.items, depth + 1); }
      case ObjectSchema(properties, required) =>
        if b.ObjectSchema? {
          ObjectNormalIffSame(a, b, depth);
        }
      case _ =>
    }
  }

  ghost predicate ShapedProperty(p: Property, depth: nat) { PropertyNameOk(p.name) && WellShaped(p.schema, depth) }

  ghost predicate EachShaped(properties: seq<Property>, depth: nat) {
    forall i :: 0 <= i < |properties| ==> ShapedProperty(properties[i], depth)
  }

  lemma ObjectShape(properties: seq<Property>, required: Option<seq<JsString>>, depth: nat)
    ensures WellShaped(ObjectSchema(properties, required), depth) <==>
            && depth <= MAX_DEPTH && 1 <= |properties| <= MAX_PROPERTIES && DistinctBy(NameOf, properties)
            && EachShaped(properties, depth + 1) && RequiredOk(properties, required)
  {
    hide PropertyNameOk, RequiredOk, Distinct;
    NamesDistinct(properties);
    assert EachShaped(properties, depth + 1) <==>
           forall i :: 0 <= i < |properties| ==> PropertyNameOk(properties[i].name) && WellShaped(properties[i].schema, depth + 1);
  }

  lemma ObjectNormalIffSame(a: Schema, b: Schema, depth: nat)
    requires a.ObjectSchema? && b.ObjectSchema? && WellShaped(a, depth)
    ensures Normal(a) == Normal(b) <==> Same(a, b)
    decreases a, 0
  {
    hide WellShaped, SameOption, SortOption, RequiredOk, PropertyNameOk, HasSame, SortBy;
    var p, q := a.properties, b.properties;
    ObjectShape(p, a.required, depth);
    SortedOptionIffSame(a.required, b.required);
    forall i, j | 0 <= i < |p| && 0 <= j < |q|
      ensures Normal(p[i].schema) == Normal(q[j].schema) <==> Same(p[i].schema, q[j].schema)
    {
      assert ShapedProperty(p[i], depth + 1);
      NormalIffSame(p[i].schema, q[j].schema, depth + 1);
    }
    PropertiesNormalIffSame(p, q);
  }

  // ----- and is itself normal

  lemma {:induction false} PropertyNodesBound(a: seq<Property>, b: seq<Property>)
    requires multiset(a) == multiset(b)
    ensures PropertyNodes(a) == PropertyNodes(b)
    decreases |a|
  {
    hide Nodes;
    if a == [] {
      assert |multiset(b)| == 0;
    } else {
      assert a[0] in multiset(b);
      var j :| 0 <= j < |b| && b[j] == a[0];
      PropertyNodesWithout(b, j);
      assert a == [a[0]] + a[1..];
      assert multiset(a[1..]) == multiset(a) - multiset{a[0]};
      assert multiset(b[..j] + b[j + 1..]) == multiset(b) - multiset{b[j]};
      PropertyNodesBound(a[1..], b[..j] + b[j + 1..]);
    }
  }

  lemma PropertyNodesWithout(b: seq<Property>, j: nat)
    requires j < |b|
    ensures PropertyNodes(b) == Nodes(b[j].schema) + PropertyNodes(b[..j] + b[j + 1..])
    ensures multiset(b) == multiset{b[j]} + multiset(b[..j] + b[j + 1..])
  {
    hide Nodes, PropertyNodes;
    TakenOut(b, j);
    PropertyNodesConcat(b[..j], [b[j]] + b[j + 1..]);
    PropertyNodesConcat(b[..j], b[j + 1..]);
    PropertyNodesCons(b[j], b[j + 1..]);
  }

  lemma TakenOut(b: seq<Property>, j: nat)
    requires j < |b|
    ensures b == b[..j] + ([b[j]] + b[j + 1..])
    ensures multiset(b) == multiset{b[j]} + multiset(b[..j] + b[j + 1..])
  {
    assert b == b[..j] + ([b[j]] + b[j + 1..]);
  }

  lemma PropertyNodesCons(p: Property, rest: seq<Property>)
    ensures PropertyNodes([p] + rest) == Nodes(p.schema) + PropertyNodes(rest)
  {
    hide Nodes;
    assert ([p] + rest)[1..] == rest;
  }

  lemma {:induction false} PropertyNodesConcat(a: seq<Property>, b: seq<Property>)
    ensures PropertyNodes(a + b) == PropertyNodes(a) + PropertyNodes(b)
  {
    if a == [] {
      assert a + b == b;
    } else {
      PropertyNodesConcat(a[1..], b);
      assert (a + b)[1..] == a[1..] + b;
    }
  }

  lemma {:induction false} PropertyNodesSame(a: seq<Property>, b: seq<Property>)
    requires |a| == |b| && forall i :: 0 <= i < |a| ==> Nodes(a[i].schema) == Nodes(b[i].schema)
    ensures PropertyNodes(a) == PropertyNodes(b)
  {
    if a != [] { PropertyNodesSame(a[1..], b[1..]); }
  }

  lemma {:induction false} NormalKeepsNodes(s: Schema)
    ensures Nodes(Normal(s)) == Nodes(s)
    decreases s
  {
    match s {
      case ArraySchema(items, _, _) => NormalKeepsNodes(items);
      case ObjectSchema(properties, _) =>
        forall i | 0 <= i < |properties| { NormalKeepsNodes(properties[i].schema); }
        var normal := NormalProperties(properties);
        PropertyNodesSame(normal, properties);
        SortByProperties(NameOf, normal);
        PropertyNodesBound(SortBy(NameOf, normal), normal);
      case _ =>
    }
  }

  ghost predicate FixedProperty(p: Property) { Normal(p.schema) == p.schema }

  lemma FixedProperties(properties: seq<Property>)
    requires forall i :: 0 <= i < |properties| ==> FixedProperty(properties[i])
    ensures NormalProperties(properties) == properties
  {
    assert forall i :: 0 <= i < |properties| ==> NormalProperties(properties)[i] == properties[i];
  }

  lemma {:induction false} NormalIsIdempotent(s: Schema, depth: nat)
    requires WellShaped(s, depth)
    ensures Normal(Normal(s)) == Normal(s)
    decreases s
  {
    match s {
      case EnumSchema(values) => SortedList(values);
      case ArraySchema(items, _, _) => NormalIsIdempotent(items, depth + 1);
      case ObjectSchema(properties, required) =>
        forall i | 0 <= i < |properties|
          ensures FixedProperty(NormalProperties(properties)[i])
        {
          NormalIsIdempotent(properties[i].schema, depth + 1);
        }
        if required.Some? { SortedList(required.value); }
        NamesDistinct(properties);
        SortedPropertiesFixed(properties);
      case _ =>
    }
  }

  lemma SortedPropertiesFixed(properties: seq<Property>)
    requires DistinctBy(NameOf, properties)
    requires forall i :: 0 <= i < |properties| ==> FixedProperty(NormalProperties(properties)[i])
    ensures var sorted := SortBy(NameOf, NormalProperties(properties)); SortBy(NameOf, NormalProperties(sorted)) == sorted
  {
    hide FixedProperty;
    var normal := NormalProperties(properties);
    var sorted := SortBy(NameOf, normal);
    SortByProperties(NameOf, normal);
    forall i | 0 <= i < |sorted|
      ensures FixedProperty(sorted[i])
    {
      assert sorted[i] in sorted;
      assert sorted[i] in normal;
    }
    FixedProperties(sorted);
    NormalKeepsNames(properties);
    SortedStaysDistinct(NameOf, normal);
  }

  /** Nothing the checks look at depends on written order. */
  lemma {:induction false} NormalStaysWellShaped(s: Schema, depth: nat)
    ensures WellShaped(Normal(s), depth) <==> WellShaped(s, depth)
    decreases s
  {
    hide Within, InOrder, RequiredOk, EnumValueOk, PropertyNameOk, Distinct, Names, SortOption;
    match s {
      case EnumSchema(values) => SortedList(values);
      case ArraySchema(items, _, _) => NormalStaysWellShaped(items, depth + 1);
      case ObjectSchema(properties, required) =>
        forall i | 0 <= i < |properties|
          ensures WellShaped(NormalProperties(properties)[i].schema, depth + 1) <==> WellShaped(properties[i].schema, depth + 1)
        {
          NormalStaysWellShaped(properties[i].schema, depth + 1);
        }
        ObjectStaysWellShaped(properties, required, depth);
      case _ =>
    }
  }

  lemma ObjectStaysWellShaped(properties: seq<Property>, required: Option<seq<JsString>>, depth: nat)
    requires forall i :: 0 <= i < |properties| ==>
                           (WellShaped(NormalProperties(properties)[i].schema, depth + 1) <==> WellShaped(properties[i].schema, depth + 1))
    ensures var s := ObjectSchema(properties, required); WellShaped(Normal(s), depth) <==> WellShaped(s, depth)
  {
    hide WellShaped, PropertyNameOk, RequiredOk, SortBy, SortOption, Normal, Names;
    var normal := NormalProperties(properties);
    NormalObject(properties, required);
    NormalKeepsNames(properties);
    ShapesStay(properties, normal, depth + 1);
    SortedObjectShape(properties, normal, required, depth);
  }

  lemma NormalObject(properties: seq<Property>, required: Option<seq<JsString>>)
    ensures Normal(ObjectSchema(properties, required)) ==
            ObjectSchema(SortBy(NameOf, NormalProperties(properties)), SortOption(required))
  {
    hide SortBy, SortOption, NormalProperties;
  }

  lemma ShapesStay(a: seq<Property>, b: seq<Property>, depth: nat)
    requires |a| == |b| && forall i :: 0 <= i < |a| ==> a[i].name == b[i].name
    requires forall i :: 0 <= i < |a| ==> (WellShaped(b[i].schema, depth) <==> WellShaped(a[i].schema, depth))
    ensures forall i :: 0 <= i < |a| ==> (ShapedProperty(b[i], depth) <==> ShapedProperty(a[i], depth))
  {
    hide WellShaped, PropertyNameOk;
  }

  lemma SortedObjectShape(properties: seq<Property>, normal: seq<Property>, required: Option<seq<JsString>>, depth: nat)
    requires Names(normal) == Names(properties) && |normal| == |properties|
    requires forall i :: 0 <= i < |normal| ==> (ShapedProperty(normal[i], depth + 1) <==> ShapedProperty(properties[i], depth + 1))
    ensures WellShaped(ObjectSchema(SortBy(NameOf, normal), SortOption(required)), depth) <==>
            WellShaped(ObjectSchema(properties, required), depth)
  {
    hide WellShaped, RequiredOk, SortBy, SortOption, ShapedProperty, Names, Distinct;
    var sorted := SortBy(NameOf, normal);
    SortByProperties(NameOf, normal);
    NamesDistinct(normal);
    NamesDistinct(properties);
    SortedStaysDistinct(NameOf, normal);
    ObjectShape(properties, required, depth);
    ObjectShape(sorted, SortOption(required), depth);
    EachStays(normal, sorted, depth + 1);
    RequiredStays(normal, sorted, required);
    RequiredByName(normal, properties, required);
  }

  lemma RequiredByName(a: seq<Property>, b: seq<Property>, required: Option<seq<JsString>>)
    requires Names(a) == Names(b)
    ensures RequiredOk(a, required) <==> RequiredOk(b, required)
  {
  }

  lemma EachStays(a: seq<Property>, b: seq<Property>, depth: nat)
    requires forall p :: p in a <==> p in b
    ensures EachShaped(a, depth) <==> EachShaped(b, depth)
  {
    hide ShapedProperty;
    assert forall i :: 0 <= i < |a| ==> a[i] in b;
    assert forall i :: 0 <= i < |b| ==> b[i] in a;
    assert EachShaped(a, depth) <==> forall p :: p in a ==> ShapedProperty(p, depth);
    assert EachShaped(b, depth) <==> forall p :: p in b ==> ShapedProperty(p, depth);
  }

  lemma RequiredStays(a: seq<Property>, b: seq<Property>, required: Option<seq<JsString>>)
    requires forall p :: p in a <==> p in b
    ensures RequiredOk(b, SortOption(required)) <==> RequiredOk(a, required)
  {
    forall name
      ensures name in Names(a) <==> name in Names(b)
    {
      if name in Names(a) {
        var i :| 0 <= i < |a| && Names(a)[i] == name;
        assert a[i] in b;
        var j :| 0 <= j < |b| && b[j] == a[i];
        assert Names(b)[j] == name;
      }
      if name in Names(b) {
        var j :| 0 <= j < |b| && Names(b)[j] == name;
        assert b[j] in a;
        var i :| 0 <= i < |a| && a[i] == b[j];
        assert Names(a)[i] == name;
      }
    }
    if required.Some? { SortedList(required.value); }
  }

  /** Accepted or not, and normalised to what, does not depend on written order. */
  lemma SchemaNormalForm(a: Schema, b: Schema)
    ensures Accepts(Normal(a)) <==> Accepts(a)
    ensures Accepts(a) ==> Normal(Normal(a)) == Normal(a)
    ensures Accepts(a) && Accepts(b) ==> (Normal(a) == Normal(b) <==> Same(a, b))
    ensures Accepts(a) && Same(a, b) ==> Accepts(b)
  {
    NormalStaysWellShaped(a, 1);
    NormalStaysWellShaped(b, 1);
    NormalKeepsNodes(a);
    NormalKeepsNodes(b);
    if Accepts(a) {
      NormalIsIdempotent(a, 1);
      NormalIffSame(a, b, 1);
    }
  }

  // ----- the reading, with one count of nodes shared by the whole schema

  lemma NormalOfMember(properties: seq<Property>, sorted: seq<Property>)
    requires forall p :: p in sorted ==> p in properties
    ensures forall x :: x in NormalProperties(sorted) ==> x in NormalProperties(properties)
  {
    hide Normal;
    var a, b := NormalProperties(sorted), NormalProperties(properties);
    forall x | x in a
      ensures x in b
    {
      var i :| 0 <= i < |a| && a[i] == x;
      assert sorted[i] in sorted;
      var j :| 0 <= j < |properties| && properties[j] == sorted[i];
      assert b[j] == x;
    }
  }

  lemma NormalCommutesWithSorting(properties: seq<Property>)
    requires DistinctBy(NameOf, properties)
    ensures NormalProperties(SortBy(NameOf, properties)) == SortBy(NameOf, NormalProperties(properties))
    ensures PropertyNodes(SortBy(NameOf, properties)) == PropertyNodes(properties)
  {
    hide Normal, Nodes, PropertyNodes, SortBy, DistinctBy, Names;
    var sorted := SortBy(NameOf, properties);
    var a, b := NormalProperties(sorted), NormalProperties(properties);
    SortByProperties(NameOf, properties);
    PropertyNodesBound(sorted, properties);
    NormalKeepsNames(sorted);
    SortedStaysDistinct(NameOf, properties);
    NormalOfMember(properties, sorted);
    InclusionIsPermutation(NameOf, a, b);
    NormalStaysSorted(sorted);
    SortByProperties(NameOf, b);
    DistinctMeansOnce(NameOf, a);
    SortedUnique(NameOf, a, SortBy(NameOf, b));
  }

  lemma NormalStaysSorted(sorted: seq<Property>)
    requires SortedBy(NameOf, sorted)
    ensures SortedBy(NameOf, NormalProperties(sorted))
  {
    hide Normal;
    assert forall i :: 0 <= i < |sorted| ==> NameOf(NormalProperties(sorted)[i]) == NameOf(sorted[i]);
  }

  lemma OneProperty(p: Property)
    ensures PropertyNodes([p]) == Nodes(p.schema)
  {
    hide Nodes;
    assert [p][1..] == [];
  }

  lemma PropertyNodesUpTo(properties: seq<Property>, i: nat)
    requires i < |properties|
    ensures PropertyNodes(properties[..i + 1]) == PropertyNodes(properties[..i]) + Nodes(properties[i].schema)
    ensures PropertyNodes(properties[..i + 1]) <= PropertyNodes(properties)
  {
    hide Nodes, PropertyNodes;
    assert properties[..i + 1] == properties[..i] + [properties[i]];
    PropertyNodesConcat(properties[..i], [properties[i]]);
    OneProperty(properties[i]);
    assert properties == properties[..i + 1] + properties[i + 1..];
    PropertyNodesConcat(properties[..i + 1], properties[i + 1..]);
  }

  class NodeBudget {
    var nodes: nat

    constructor ()
      ensures nodes == 0
    {
      nodes := 0;
    }
  }

  /** Succeeds exactly on a well-shaped schema that still fits the budget, and then has counted
      its nodes. */
  method DataSchema(value: Schema, depth: nat, budget: NodeBudget) returns (r: Option<Schema>)
    modifies budget
    ensures r.Some? <==> WellShaped(value, depth) && old(budget.nodes) + Nodes(value) <= MAX_NODES
    ensures r.Some? ==> r.value == Normal(value) && budget.nodes == old(budget.nodes) + Nodes(value)
    decreases value
  {
    hide PropertyNameOk, EnumValueOk, Distinct, RequiredOk, Within, InOrder, Names, SortOption;
    budget.nodes := budget.nodes + 1;
    if budget.nodes > MAX_NODES || depth > MAX_DEPTH {
      return None;
    }
    match value {
      case BooleanSchema => return Some(value);
      case TextSchema(_, _) => return if WellShaped(value, depth) then Some(value) else None;
      case NumberSchema(_, _, _) => return if WellShaped(value, depth) then Some(value) else None;
      case EnumSchema(values) =>
        if !(1 <= |values| <= MAX_ENUM_VALUES) || !(forall v :: v in values ==> EnumValueOk(v)) || !Distinct(values) {
          return None;
        }
        return Some(EnumSchema(SortStrings(values)));
      case ArraySchema(items, low, high) =>
        if !Within(low, 0, MAX_ARRAY_ITEMS) || !Within(high, 0, MAX_ARRAY_ITEMS) || !InOrder(low, high) {
          return None;
        }
        var inner := DataSchema(items, depth + 1, budget);
        return if inner.None? then None else Some(ArraySchema(inner.value, low, high));
      case ObjectSchema(properties, required) =>
        if !(1 <= |properties| <= MAX_PROPERTIES) || !Distinct(Names(properties))
           || exists i :: 0 <= i < |properties| && !PropertyNameOk(properties[i].name) {
          return None;
        }
        NamesDistinct(properties);
        var normal := DataProperties(value, depth, budget);
        if normal.None? || !RequiredOk(properties, required) {
          return None;
        }
        return Some(ObjectSchema(normal.value, SortOption(required)));
    }
  }

  method DataProperties(value: Schema, depth: nat, budget: NodeBudget) returns (r: Option<seq<Property>>)
    requires value.ObjectSchema? && DistinctBy(NameOf, value.properties) && budget.nodes <= MAX_NODES
    modifies budget
    ensures r.Some? <==> AllFit(value.properties, depth + 1, old(budget.nodes))
    ensures r.Some? ==>
              && r.value == SortBy(NameOf, NormalProperties(value.properties))
              && budget.nodes == old(budget.nodes) + PropertyNodes(value.properties)
    decreases value, 0
  {
    hide PropertyNameOk, WellShaped, Normal, SortBy, DistinctBy, PropertyNodes, ReadSoFar, AllFit, NormalProperties;
    var properties := value.properties;
    var sorted := SortBy(NameOf, properties);
    SortByProperties(NameOf, properties);
    NormalCommutesWithSorting(properties);
    SameFit(properties, sorted, depth + 1, budget.nodes);
    NothingRead(sorted, depth + 1, budget.nodes);
    var out: seq<Property> := [];
    var i := 0;
    while i < |sorted|
      invariant 0 <= i <= |sorted| && ReadSoFar(sorted, i, depth + 1, out, old(budget.nodes), budget.nodes)
    {
      assert sorted[i] in sorted && sorted[i] in properties;
      var j :| 0 <= j < |properties| && properties[j] == sorted[i];
      ghost var before := budget.nodes;
      var inner := DataSchema(properties[j].schema, depth + 1, budget);
      if inner.None? {
        OneDoesNotFit(sorted, i, depth + 1, out, old(budget.nodes), before);
        return None;
      }
      OneMoreRead(sorted, i, depth + 1, out, old(budget.nodes), before);
      out := out + [Property(sorted[i].name, inner.value)];
      i := i + 1;
    }
    AllRead(sorted, depth + 1, out, old(budget.nodes), budget.nodes);
    r := Some(out);
  }

  /** Every property schema is well shaped and together they still fit the budget. */
  ghost predicate AllFit(properties: seq<Property>, depth: nat, nodes: nat) {
    (forall i :: 0 <= i < |properties| ==> WellShaped(properties[i].schema, depth)) && nodes + PropertyNodes(properties) <= MAX_NODES
  }

  ghost predicate ReadSoFar(sorted: seq<Property>, i: nat, depth: nat, out: seq<Property>, start: nat, nodes: nat)
    requires i <= |sorted|
  {
    && out == NormalProperties(sorted[..i]) && nodes == start + PropertyNodes(sorted[..i]) && nodes <= MAX_NODES
    && forall k :: 0 <= k < i ==> WellShaped(sorted[k].schema, depth)
  }

  lemma NothingRead(sorted: seq<Property>, depth: nat, start: nat)
    requires start <= MAX_NODES
    ensures ReadSoFar(sorted, 0, depth, [], start, start)
  {
  }

  lemma OneMoreRead(sorted: seq<Property>, i: nat, depth: nat, out: seq<Property>, start: nat, nodes: nat)
    requires i < |sorted| && ReadSoFar(sorted, i, depth, out, start, nodes)
    requires WellShaped(sorted[i].schema, depth) && nodes + Nodes(sorted[i].schema) <= MAX_NODES
    ensures var property := Property(sorted[i].name, Normal(sorted[i].schema));
            ReadSoFar(sorted, i + 1, depth, out + [property], start, nodes + Nodes(sorted[i].schema))
  {
    hide WellShaped, Normal, Nodes;
    PropertyNodesUpTo(sorted, i);
    NormalUpTo(sorted, i);
  }

  lemma OneDoesNotFit(sorted: seq<Property>, i: nat, depth: nat, out: seq<Property>, start: nat, nodes: nat)
    requires i < |sorted| && ReadSoFar(sorted, i, depth, out, start, nodes)
    requires !(WellShaped(sorted[i].schema, depth) && nodes + Nodes(sorted[i].schema) <= MAX_NODES)
    ensures !AllFit(sorted, depth, start)
  {
    hide WellShaped, Normal, Nodes;
    PropertyNodesUpTo(sorted, i);
  }

  lemma AllRead(sorted: seq<Property>, depth: nat, out: seq<Property>, start: nat, nodes: nat)
    requires ReadSoFar(sorted, |sorted|, depth, out, start, nodes)
    ensures AllFit(sorted, depth, start) && out == NormalProperties(sorted) && nodes == start + PropertyNodes(sorted)
  {
    hide WellShaped, Normal, Nodes;
    assert sorted[..|sorted|] == sorted;
  }

  lemma SameFit(a: seq<Property>, b: seq<Property>, depth: nat, nodes: nat)
    requires multiset(a) == multiset(b) && forall p :: p in a <==> p in b
    ensures AllFit(a, depth, nodes) <==> AllFit(b, depth, nodes)
  {
    PropertyNodesBound(a, b);
    EachWellShaped(a, b, depth);
  }

  lemma EachWellShaped(a: seq<Property>, b: seq<Property>, depth: nat)
    requires forall p :: p in a <==> p in b
    ensures (forall i :: 0 <= i < |a| ==> WellShaped(a[i].schema, depth)) <==> (forall i :: 0 <= i < |b| ==> WellShaped(b[i].schema, depth))
  {
    hide WellShaped;
    assert forall i :: 0 <= i < |a| ==> a[i] in b;
    assert forall i :: 0 <= i < |b| ==> b[i] in a;
    assert (forall i :: 0 <= i < |a| ==> WellShaped(a[i].schema, depth)) <==> (forall p :: p in a ==> WellShaped(p.schema, depth));
    assert (forall i :: 0 <= i < |b| ==> WellShaped(b[i].schema, depth)) <==> (forall p :: p in b ==> WellShaped(p.schema, depth));
  }

  lemma NormalUpTo(properties: seq<Property>, i: nat)
    requires i < |properties|
    ensures NormalProperties(properties[..i + 1]) ==
            NormalProperties(properties[..i]) + [Property(properties[i].name, Normal(properties[i].schema))]
  {
    hide Normal;
  }
}
