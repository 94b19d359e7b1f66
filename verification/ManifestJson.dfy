/** JSON records and the recursive data schema, as they are written and as they are read: a
    record is read back from any value like it, whatever order its members are in. */
module ManifestJson {
  import opened Options
  import opened JsStrings
  import opened KeyedLists
  import opened Utf
  import opened Json
  import C = JsonCanonical
  import S = ManifestSchemas

  // ----- records, lists and strings as JSON

  type Values = seq<Option<Json>>

  /** The members that have a value, in the order of the keys. */
  function Present(keys: seq<JsString>, values: Values): seq<Member>
    requires |keys| == |values|
  {
    if keys == [] then []
    else (if values[0].None? then [] else [Member(keys[0], values[0].value)]) + Present(keys[1..], values[1..])
  }

  function Record(keys: seq<JsString>, values: Values): Json
    requires |keys| == |values|
  {
    Obj(Present(keys, values))
  }

  function Text(s: Option<JsString>): Option<Json> { if s.None? then None else Some(Str(s.value)) }

  function Number(n: Option<int>): Option<Json> { if n.None? then None else Some(Num(n.value)) }

  function Flag(present: bool): Option<Json> { if present then Some(Bool(true)) else None }

  function Listed<T>(f: T -> Json, s: seq<T>): Json { Arr(MapAll(f, s)) }

  function OptionalList<T>(f: T -> Json, s: Option<seq<T>>): Option<Json> { if s.None? then None else Some(Listed(f, s.value)) }

  function StrOf(s: JsString): Json { Str(s) }

  function Names(s: Option<seq<JsString>>): Option<Json> { OptionalList(StrOf, s) }

  // ----- and read

  /** What an object has under a key. */
  function Field(members: seq<Member>, key: JsString): (r: Option<Json>)
    ensures r.Some? ==> Member(key, r.value) in members
    ensures r.None? ==> forall m :: m in members ==> m.key != key
  {
    if members == [] then None
    else if members[0].key == key then Some(members[0].value)
    else Field(members[1..], key)
  }

  predicate OnlyKeys(members: seq<Member>, keys: seq<JsString>) { forall i :: 0 <= i < |members| ==> members[i].key in keys }

  /** An object's values under the given keys. A member under any other key is refused. */
  function Fields(v: Json, keys: seq<JsString>): (r: Option<Values>)
    ensures r.Some? ==> v.Obj? && |r.value| == |keys|
    ensures r.Some? ==> forall i :: 0 <= i < |keys| ==> r.value[i] == Field(v.members, keys[i])
  {
    if v.Obj? && OnlyKeys(v.members, keys) then Some(seq(|keys|, i requires 0 <= i < |keys| => Field(v.members, keys[i])))
    else None
  }

  function StringIn(v: Json): Option<JsString> { if v.Str? then Some(v.text) else None }

  function StringOf(w: Option<Json>): Option<JsString> { if w.None? then None else StringIn(w.value) }

  function TextOf(w: Option<Json>): Option<Option<JsString>> {
    if w.None? then Some(None) else
    var s :- StringIn(w.value);
    Some(Some(s))
  }

  function NumberOf(w: Option<Json>): Option<Option<int>> {
    if w.None? then Some(None) else if w.value.Num? then Some(Some(w.value.number)) else None
  }

  function FlagOf(w: Option<Json>): Option<bool> {
    if w.None? then Some(false) else if w.value == Bool(true) then Some(true) else None
  }

  function ReadAll<T>(read: Json -> Option<T>, items: seq<Json>): Option<seq<T>> {
    if items == [] then Some([]) else
    var first :- read(items[0]);
    var rest :- ReadAll(read, items[1..]);
    Some([first] + rest)
  }

  function ListIn<T>(read: Json -> Option<T>, v: Json): Option<seq<T>> { if v.Arr? then ReadAll(read, v.items) else None }

  function ListOf<T>(read: Json -> Option<T>, w: Option<Json>): Option<seq<T>> { if w.None? then None else ListIn(read, w.value) }

  function OptionalListOf<T>(read: Json -> Option<T>, w: Option<Json>): Option<Option<seq<T>>> {
    if w.None? then Some(None) else
    var list :- ListIn(read, w.value);
    Some(Some(list))
  }

  function NamesOf(w: Option<Json>): Option<Option<seq<JsString>>> { OptionalListOf(StringIn, w) }

  /** Both can be printed, and they are the same value. */
  predicate Alike(v: Json, w: Json) { Printable(v) && Printable(w) && C.Same(v, w) }

  predicate AlikeOption(v: Option<Json>, w: Option<Json>) {
    v.Some? == w.Some? && (v.Some? ==> Alike(v.value, w.value))
  }

  lemma AlikeIsSymmetric(v: Json, w: Json)
    requires Alike(v, w)
    ensures Alike(w, v)
  {
    C.NormalIffSame(v, w);
    C.NormalIffSame(w, v);
  }

  lemma {:induction false} PresentMembers(keys: seq<JsString>, values: Values)
    requires |keys| == |values|
    ensures forall m :: m in Present(keys, values) <==> exists i :: 0 <= i < |keys| && keys[i] == m.key && values[i] == Some(m.value)
  {
    if keys != [] {
      PresentMembers(keys[1..], values[1..]);
      forall m
        ensures m in Present(keys, values) <==> exists i :: 0 <= i < |keys| && keys[i] == m.key && values[i] == Some(m.value)
      {
        if i :| 0 <= i < |keys| && keys[i] == m.key && values[i] == Some(m.value) {
          if i > 0 { assert keys[1..][i - 1] == m.key && values[1..][i - 1] == Some(m.value); }
        }
        if m in Present(keys[1..], values[1..]) {
          var i :| 0 <= i < |keys[1..]| && keys[1..][i] == m.key && values[1..][i] == Some(m.value);
          assert keys[i + 1] == m.key && values[i + 1] == Some(m.value);
        }
      }
    }
  }

  lemma MemberPrints(members: seq<Member>, m: Member)
    requires Printable(Obj(members)) && m in members
    ensures Printable(m.value)
  {
    var i :| 0 <= i < |members| && members[i] == m;
  }

  /** The one member of an object under a key. */
  lemma FieldIs(members: seq<Member>, m: Member)
    requires DistinctKeys(members) && m in members
    ensures Field(members, m.key) == Some(m.value)
  {
    var f := Field(members, m.key);
    var i :| 0 <= i < |members| && members[i] == m;
    var j :| 0 <= j < |members| && members[j] == Member(m.key, f.value);
  }

  lemma Counterpart(members: seq<Member>, others: seq<Member>, m: Member)
    requires Alike(Obj(members), Obj(others)) && m in members
    ensures exists n :: n in others && n.key == m.key && Alike(m.value, n.value)
  {
    var i :| 0 <= i < |members| && members[i] == m;
    assert C.HasSame(members[i], others);
    var j :| 0 <= j < |others| && others[j].key == m.key && C.Same(m.value, others[j].value);
    MemberPrints(members, m);
    assert others[j] in others;
    MemberPrints(others, others[j]);
  }

  /** What a record holds is read back, field by field, from any value like it. */
  lemma RecordReads(keys: seq<JsString>, values: Values, w: Json)
    requires |keys| == |values| && S.Distinct(keys) && Alike(Record(keys, values), w)
    ensures Fields(w, keys).Some?
    ensures forall i :: 0 <= i < |keys| ==> AlikeOption(values[i], Fields(w, keys).value[i])
  {
    hide Printable, Field, Alike, AlikeOption;
    PresentMembers(keys, values);
    var p, q := Present(keys, values), ObjectMembers(Obj(Present(keys, values)), w);
    AlikeIsSymmetric(Obj(p), w);
    forall j | 0 <= j < |q|
      ensures q[j].key in keys
    {
      Counterpart(q, p, q[j]);
    }
    forall i | 0 <= i < |keys|
      ensures AlikeOption(values[i], Field(q, keys[i]))
    {
      FieldReads(keys, values, q, i);
    }
  }

  /** A value like an object is one. */
  function ObjectMembers(v: Json, w: Json): (r: seq<Member>)
    requires v.Obj? && Alike(v, w)
    ensures w == Obj(r) && DistinctKeys(r) && |r| == |v.members|
  {
    w.members
  }

  lemma FieldReads(keys: seq<JsString>, values: Values, q: seq<Member>, i: nat)
    requires |keys| == |values| && S.Distinct(keys) && i < |keys| && Alike(Record(keys, values), Obj(q)) && DistinctKeys(q)
    ensures AlikeOption(values[i], Field(q, keys[i]))
  {
    hide Printable, Field, Alike;
    PresentMembers(keys, values);
    var p := Present(keys, values);
    if values[i].Some? {
      var m := Member(keys[i], values[i].value);
      assert m in p;
      Counterpart(p, q, m);
      var n :| n in q && n.key == m.key && Alike(m.value, n.value);
      FieldIs(q, n);
    } else if Field(q, keys[i]).Some? {
      AlikeIsSymmetric(Obj(p), Obj(q));
      Counterpart(q, p, Member(keys[i], Field(q, keys[i]).value));
      assert false;
    }
  }

  lemma StringReads(s: JsString, w: Option<Json>)
    requires AlikeOption(Some(Str(s)), w)
    ensures StringOf(w) == Some(s)
  {
  }

  lemma TextReads(s: Option<JsString>, w: Option<Json>)
    requires AlikeOption(Text(s), w)
    ensures TextOf(w) == Some(s)
  {
  }

  lemma NumberReads(n: Option<int>, w: Option<Json>)
    requires AlikeOption(Number(n), w)
    ensures NumberOf(w) == Some(n)
  {
  }

  lemma FlagReads(present: bool, w: Option<Json>)
    requires AlikeOption(Flag(present), w)
    ensures FlagOf(w) == Some(present)
  {
  }

  /** From any value like what an entry of the list is written as, the reader gives something
      that stands in the relation to the entry. */
  ghost predicate Reads<T(!new)>(f: T -> Json, read: Json -> Option<T>, same: (T, T) -> bool, s: seq<T>) {
    forall x, v :: x in s && Alike(f(x), v) ==> read(v).Some? && same(x, read(v).value)
  }

  ghost predicate Pairwise<T(!new)>(same: (T, T) -> bool, s: seq<T>, t: seq<T>) {
    |s| == |t| && forall i :: 0 <= i < |s| ==> same(s[i], t[i])
  }

  lemma {:induction false} EachReads<T(!new)>(read: Json -> Option<T>, same: (T, T) -> bool, items: seq<Json>, s: seq<T>)
    requires |items| == |s| && forall i :: 0 <= i < |s| ==> read(items[i]).Some? && same(s[i], read(items[i]).value)
    ensures ReadAll(read, items).Some? && Pairwise(same, s, ReadAll(read, items).value)
  {
    if s != [] { EachReads(read, same, items[1..], s[1..]); }
  }

  lemma ListReadsLike<T(!new)>(f: T -> Json, read: Json -> Option<T>, same: (T, T) -> bool, s: seq<T>, w: Option<Json>)
    requires AlikeOption(Some(Listed(f, s)), w) && Reads(f, read, same, s)
    ensures ListOf(read, w).Some? && Pairwise(same, s, ListOf(read, w).value)
  {
    var items := w.value.items;
    forall i | 0 <= i < |s|
      ensures read(items[i]).Some? && same(s[i], read(items[i]).value)
    {
      assert s[i] in s && Alike(f(s[i]), items[i]);
    }
    EachReads(read, same, items, s);
  }

  ghost predicate ReadsBack<T(!new)>(f: T -> Json, read: Json -> Option<T>, s: seq<T>) {
    forall x, v :: x in s && Alike(f(x), v) ==> read(v) == Some(x)
  }

  lemma ListReads<T(!new)>(f: T -> Json, read: Json -> Option<T>, s: seq<T>, w: Option<Json>)
    requires AlikeOption(Some(Listed(f, s)), w) && ReadsBack(f, read, s)
    ensures ListOf(read, w) == Some(s)
  {
    hide ListOf, Listed, AlikeOption, Alike;
    ListReadsLike(f, read, Equal, s, w);
    var t := ListOf(read, w).value;
    assert forall i :: 0 <= i < |s| ==> Equal(s[i], t[i]);
    assert s == t;
  }

  ghost predicate Equal<T(!new)>(x: T, y: T) { x == y }

  lemma OptionalListReads<T(!new)>(f: T -> Json, read: Json -> Option<T>, s: Option<seq<T>>, w: Option<Json>)
    requires AlikeOption(OptionalList(f, s), w) && (s.Some? ==> ReadsBack(f, read, s.value))
    ensures OptionalListOf(read, w) == Some(s)
  {
    hide Alike, Listed, ListIn;
    if s.Some? { ListReads(f, read, s.value, w); }
  }

  lemma StringsRead(s: seq<JsString>)
    ensures ReadsBack(StrOf, StringIn, s)
  {
  }

  lemma NamesRead(s: Option<seq<JsString>>, w: Option<Json>)
    requires AlikeOption(Names(s), w)
    ensures NamesOf(w) == Some(s)
  {
    hide AlikeOption;
    if s.Some? { StringsRead(s.value); }
    OptionalListReads(StrOf, StringIn, s, w);
  }

  // ----- what was read could have been written

  predicate PrintableOption(w: Option<Json>) { w.Some? ==> Printable(w.value) }

  lemma FieldsPrint(v: Json, keys: seq<JsString>)
    requires Printable(v) && Fields(v, keys).Some?
    ensures forall i :: 0 <= i < |keys| ==> PrintableOption(Fields(v, keys).value[i])
  {
    hide Printable, Field;
    forall i | 0 <= i < |keys|
      ensures PrintableOption(Fields(v, keys).value[i])
    {
      var f := Field(v.members, keys[i]);
      if f.Some? { MemberPrints(v.members, Member(keys[i], f.value)); }
    }
  }

  lemma {:induction false} PresentDistinct(keys: seq<JsString>, values: Values)
    requires |keys| == |values| && S.Distinct(keys)
    ensures DistinctKeys(Present(keys, values))
  {
    if keys != [] {
      PresentDistinct(keys[1..], values[1..]);
      PresentMembers(keys[1..], values[1..]);
      assert forall m :: m in Present(keys[1..], values[1..]) ==> m.key in keys[1..];
      assert forall i :: 0 < i < |keys| ==> keys[i] != keys[0];
    }
  }

  /** Distinct keys, each of them in the other list: no longer than that. */
  lemma {:induction false} NotLonger(a: seq<Member>, b: seq<Member>)
    requires DistinctKeys(a) && forall m :: m in a ==> HasKey(b, m.key)
    ensures |a| <= |b|
  {
    if a != [] {
      assert HasKey(b, a[0].key);
      var j :| 0 <= j < |b| && b[j].key == a[0].key;
      var less := b[..j] + b[j + 1..];
      forall m | m in a[1..]
        ensures HasKey(less, m.key)
      {
        var i :| 0 < i < |a| && a[i] == m;
        assert HasKey(b, m.key) && m.key != a[0].key;
        var k :| 0 <= k < |b| && b[k].key == m.key;
        assert less[if k < j then k else k - 1] == b[k];
      }
      NotLonger(a[1..], less);
    }
  }

  /** An object whose fields are like the values is like the record. */
  lemma RecordWritten(keys: seq<JsString>, values: Values, v: Json)
    requires |keys| == |values| && S.Distinct(keys) && Printable(v) && Fields(v, keys).Some?
    requires forall i :: 0 <= i < |keys| ==> AlikeOption(values[i], Fields(v, keys).value[i])
    ensures Alike(Record(keys, values), v)
  {
    hide Field, Fields, Present, OnlyKeys;
    var p, q := Present(keys, values), v.members;
    PresentDistinct(keys, values);
    forall i | 0 <= i < |p|
      ensures C.HasSame(p[i], q) && WellFormed(p[i].key) && Printable(p[i].value) && HasKey(q, p[i].key)
    {
      WrittenField(keys, values, v, p[i]);
    }
    NotLonger(p, q);
    forall m | m in q
      ensures HasKey(p, m.key)
    {
      FieldPresent(keys, values, v, m);
    }
    NotLonger(q, p);
  }

  lemma WrittenField(keys: seq<JsString>, values: Values, v: Json, m: Member)
    requires |keys| == |values| && Printable(v) && Fields(v, keys).Some? && m in Present(keys, values)
    requires forall i :: 0 <= i < |keys| ==> AlikeOption(values[i], Fields(v, keys).value[i])
    ensures C.HasSame(m, v.members) && WellFormed(m.key) && Printable(m.value) && HasKey(v.members, m.key)
  {
    hide Field, Present, OnlyKeys;
    PresentMembers(keys, values);
    var k :| 0 <= k < |keys| && keys[k] == m.key && values[k] == Some(m.value);
    var f := Field(v.members, keys[k]);
    assert AlikeOption(values[k], f);
    var j :| 0 <= j < |v.members| && v.members[j] == Member(m.key, f.value);
  }

  lemma FieldPresent(keys: seq<JsString>, values: Values, v: Json, m: Member)
    requires |keys| == |values| && Fields(v, keys).Some? && m in v.members
    requires forall i :: 0 <= i < |keys| ==> AlikeOption(values[i], Fields(v, keys).value[i])
    ensures HasKey(Present(keys, values), m.key)
  {
    hide Field, Present, Alike;
    PresentMembers(keys, values);
    var k :| 0 <= k < |keys| && keys[k] == m.key;
    assert AlikeOption(values[k], Field(v.members, keys[k]));
    var n := Member(keys[k], values[k].value);
    assert n in Present(keys, values);
    var i :| 0 <= i < |Present(keys, values)| && Present(keys, values)[i] == n;
  }

  lemma StringWritten(w: Option<Json>, s: JsString)
    requires StringOf(w) == Some(s) && PrintableOption(w)
    ensures AlikeOption(Some(Str(s)), w)
  {
  }

  lemma TextWritten(w: Option<Json>, s: Option<JsString>)
    requires TextOf(w) == Some(s) && PrintableOption(w)
    ensures AlikeOption(Text(s), w)
  {
  }

  lemma NumberWritten(w: Option<Json>, n: Option<int>)
    requires NumberOf(w) == Some(n) && PrintableOption(w)
    ensures AlikeOption(Number(n), w)
  {
  }

  lemma FlagWritten(w: Option<Json>, present: bool)
    requires FlagOf(w) == Some(present) && PrintableOption(w)
    ensures AlikeOption(Flag(present), w)
  {
  }

  ghost predicate WritesBack<T(!new)>(f: T -> Json, read: Json -> Option<T>, items: seq<Json>) {
    forall v, x :: v in items && Printable(v) && read(v) == Some(x) ==> Alike(f(x), v)
  }

  lemma {:induction false} AllRead<T>(read: Json -> Option<T>, items: seq<Json>, s: seq<T>)
    requires ReadAll(read, items) == Some(s)
    ensures |s| == |items| && forall i :: 0 <= i < |s| ==> read(items[i]) == Some(s[i])
  {
    if items != [] { AllRead(read, items[1..], s[1..]); }
  }

  lemma ListWritten<T(!new)>(f: T -> Json, read: Json -> Option<T>, v: Json, s: seq<T>)
    requires ListIn(read, v) == Some(s) && Printable(v) && WritesBack(f, read, v.items)
    ensures Alike(Listed(f, s), v)
  {
    AllRead(read, v.items, s);
    forall i | 0 <= i < |s|
      ensures Alike(f(s[i]), v.items[i])
    {
      assert v.items[i] in v.items;
    }
  }

  lemma RequiredListWritten<T(!new)>(f: T -> Json, read: Json -> Option<T>, w: Option<Json>, s: seq<T>)
    requires ListOf(read, w) == Some(s) && PrintableOption(w) && WritesBack(f, read, w.value.items)
    ensures AlikeOption(Some(Listed(f, s)), w)
  {
    hide Alike, Listed, ListIn;
    ListWritten(f, read, w.value, s);
  }

  lemma OptionalListWritten<T(!new)>(f: T -> Json, read: Json -> Option<T>, w: Option<Json>, s: Option<seq<T>>)
    requires OptionalListOf(read, w) == Some(s) && PrintableOption(w) && (s.Some? ==> WritesBack(f, read, w.value.items))
    ensures AlikeOption(OptionalList(f, s), w)
  {
    hide Alike, Listed;
    if s.Some? { ListWritten(f, read, w.value, s.value); }
  }

  lemma StringsWritten(items: seq<Json>)
    ensures WritesBack(StrOf, StringIn, items)
  {
  }

  lemma NamesWritten(w: Option<Json>, s: Option<seq<JsString>>)
    requires NamesOf(w) == Some(s) && PrintableOption(w)
    ensures AlikeOption(Names(s), w)
  {
    hide AlikeOption, PrintableOption;
    if s.Some? { StringsWritten(w.value.items); }
    OptionalListWritten(StrOf, StringIn, w, s);
  }

  // ----- how deep records nest

  /** Absent, or nested no deeper than that. */
  predicate Shallow(w: Option<Json>, most: nat) { w.Some? ==> Depth(w.value) <= most }

  lemma RecordDepth(keys: seq<JsString>, values: Values, most: nat)
    requires |keys| == |values| && forall i :: 0 <= i < |values| ==> Shallow(values[i], most)
    ensures Depth(Record(keys, values)) <= most + 1
  {
    var p := Present(keys, values);
    PresentMembers(keys, values);
    forall i | 0 <= i < |p|
      ensures Depth(p[i].value) <= most
    {
      assert p[i] in p;
      var k :| 0 <= k < |keys| && keys[k] == p[i].key && values[k] == Some(p[i].value);
      assert Shallow(values[k], most);
    }
    C.DepthBound(p, most);
  }

  lemma {:induction false} ItemsBound(items: seq<Json>, most: nat)
    requires forall i :: 0 <= i < |items| ==> Depth(items[i]) <= most
    ensures ItemsDepth(items) <= most
  {
    if items != [] { ItemsBound(items[1..], most); }
  }

  lemma ListDepth<T(!new)>(f: T -> Json, s: seq<T>, most: nat)
    requires forall x :: x in s ==> Depth(f(x)) <= most
    ensures Depth(Listed(f, s)) <= most + 1
  {
    var items := MapAll(f, s);
    assert forall i :: 0 <= i < |s| ==> s[i] in s && items[i] == f(s[i]);
    ItemsBound(items, most);
  }

  lemma NamesDepth(s: Option<seq<JsString>>)
    ensures Shallow(Names(s), 1)
  {
    if s.Some? { ListDepth(StrOf, s.value, 0); }
  }

  // ----- the recursive schema

  const TYPE := Js("type")
  const MIN_LENGTH := Js("minLength")
  const MAX_LENGTH := Js("maxLength")
  const MINIMUM := Js("minimum")
  const MAXIMUM := Js("maximum")
  const MIN_ITEMS := Js("minItems")
  const MAX_ITEMS := Js("maxItems")

  const BOOLEAN_KEYS := [TYPE]
  const TEXT_KEYS := [TYPE, MIN_LENGTH, MAX_LENGTH]
  const NUMBER_KEYS := [TYPE, MINIMUM, MAXIMUM]
  const ENUM_KEYS := [TYPE, Js("values")]
  const ARRAY_KEYS := [TYPE, Js("items"), MIN_ITEMS, MAX_ITEMS]
  const OBJECT_KEYS := [TYPE, Js("properties"), Js("required")]

  const STRING := Js("string")
  const INTEGER := Js("integer")
  const NUMBER := Js("number")
  const BOOLEAN := Js("boolean")
  const ENUM := Js("enum")
  const ARRAY := Js("array")
  const OBJECT := Js("object")

  function TypeName(s: S.Schema): JsString {
    match s
    case TextSchema(_, _) => STRING
    case NumberSchema(integer, _, _) => if integer then INTEGER else NUMBER
    case BooleanSchema => BOOLEAN
    case EnumSchema(_) => ENUM
    case ArraySchema(_, _, _) => ARRAY
    case ObjectSchema(_, _) => OBJECT
  }

  function SchemaKeys(s: S.Schema): seq<JsString> {
    match s
    case TextSchema(_, _) => TEXT_KEYS
    case NumberSchema(_, _, _) => NUMBER_KEYS
    case BooleanSchema => BOOLEAN_KEYS
    case EnumSchema(_) => ENUM_KEYS
    case ArraySchema(_, _, _) => ARRAY_KEYS
    case ObjectSchema(_, _) => OBJECT_KEYS
  }

  /** The values of a schema's members, one list for each kind of schema. */
  function SchemaValues(s: S.Schema): (v: Values)
    ensures |v| == |SchemaKeys(s)|
    decreases s, 0
  {
    var name := Some(Str(TypeName(s)));
    match s
    case TextSchema(low, high) => [name, Number(low), Number(high)]
    case NumberSchema(_, low, high) => [name, Number(low), Number(high)]
    case BooleanSchema => [name]
    case EnumSchema(values) => [name, Some(Listed(StrOf, values))]
    case ArraySchema(items, low, high) => [name, Some(SchemaJson(items)), Number(low), Number(high)]
    case ObjectSchema(properties, required) => [name, Some(Obj(PropertyMembers(properties))), Names(required)]
  }

  function SchemaJson(s: S.Schema): Json
    decreases s, 1
  {
    Record(SchemaKeys(s), SchemaValues(s))
  }

  function PropertyMembers(properties: seq<S.Property>): (r: seq<Member>)
    ensures |r| == |properties|
    ensures forall i :: 0 <= i < |r| ==> r[i] == Member(properties[i].name, SchemaJson(properties[i].schema))
  {
    if properties == [] then []
    else [Member(properties[0].name, SchemaJson(properties[0].schema))] + PropertyMembers(properties[1..])
  }

  lemma SchemaKeysAreDistinct()
    ensures S.Distinct(TEXT_KEYS) && S.Distinct(NUMBER_KEYS) && S.Distinct(BOOLEAN_KEYS) && S.Distinct(ENUM_KEYS)
    ensures S.Distinct(ARRAY_KEYS) && S.Distinct(OBJECT_KEYS)
  {
    assert MIN_LENGTH[1] == 'i' as int && MAX_LENGTH[1] == 'a' as int;
    assert MINIMUM[1] == 'i' as int && MAXIMUM[1] == 'a' as int;
    assert MIN_ITEMS[1] == 'i' as int && MAX_ITEMS[1] == 'a' as int;
  }

  lemma TypeNamesDiffer()
    ensures STRING !in {INTEGER, NUMBER} && BOOLEAN !in {STRING, INTEGER, NUMBER} && ENUM !in {STRING, INTEGER, NUMBER, BOOLEAN}
    ensures ARRAY !in {STRING, INTEGER, NUMBER, BOOLEAN, ENUM} && OBJECT !in {STRING, INTEGER, NUMBER, BOOLEAN, ENUM, ARRAY}
    ensures INTEGER != NUMBER
  {
    assert STRING[0] == 's' as int && NUMBER[0] == 'n' as int && OBJECT[0] == 'o' as int;
    assert INTEGER[0] == 'i' as int && BOOLEAN[0] == 'b' as int;
  }

  function ReadTextSchema(v: Json): Option<S.Schema> {
    var f :- Fields(v, TEXT_KEYS);
    var low :- NumberOf(f[1]);
    var high :- NumberOf(f[2]);
    Some(S.TextSchema(low, high))
  }

  function ReadNumberSchema(v: Json, integer: bool): Option<S.Schema> {
    var f :- Fields(v, NUMBER_KEYS);
    var low :- NumberOf(f[1]);
    var high :- NumberOf(f[2]);
    Some(S.NumberSchema(integer, low, high))
  }

  function ReadBooleanSchema(v: Json): Option<S.Schema> {
    var _ :- Fields(v, BOOLEAN_KEYS);
    Some(S.BooleanSchema)
  }

  function ReadEnumSchema(v: Json): Option<S.Schema> {
    var f :- Fields(v, ENUM_KEYS);
    var values :- ListOf(StringIn, f[1]);
    Some(S.EnumSchema(values))
  }

  function ReadArraySchema(v: Json): Option<S.Schema>
    decreases v, 0
  {
    var f :- Fields(v, ARRAY_KEYS);
    if f[1].None? then None else
    assert Member(ARRAY_KEYS[1], f[1].value) in v.members;
    var items :- ReadSchema(f[1].value);
    var low :- NumberOf(f[2]);
    var high :- NumberOf(f[3]);
    Some(S.ArraySchema(items, low, high))
  }

  /** Properties are read in the order of their names. */
  function ReadObjectSchema(v: Json): Option<S.Schema>
    decreases v, 0
  {
    var f :- Fields(v, OBJECT_KEYS);
    if f[1].None? || !f[1].value.Obj? then None else
    assert Member(OBJECT_KEYS[1], f[1].value) in v.members;
    var properties :- ReadProperties(f[1].value.members);
    var required :- NamesOf(f[2]);
    Some(S.ObjectSchema(SortBy(S.NameOf, properties), required))
  }

  function ReadProperties(members: seq<Member>): Option<seq<S.Property>> {
    if members == [] then Some([]) else
    var schema :- ReadSchema(members[0].value);
    var rest :- ReadProperties(members[1..]);
    Some([S.Property(members[0].key, schema)] + rest)
  }

  /** The member `type` says what the others are. */
  function ReadSchema(v: Json): Option<S.Schema>
    decreases v, 1
  {
    if !v.Obj? then None else
    var name :- StringOf(Field(v.members, TYPE));
    if name == STRING then ReadTextSchema(v)
    else if name == INTEGER || name == NUMBER then ReadNumberSchema(v, name == INTEGER)
    else if name == BOOLEAN then ReadBooleanSchema(v)
    else if name == ENUM then ReadEnumSchema(v)
    else if name == ARRAY then ReadArraySchema(v)
    else if name == OBJECT then ReadObjectSchema(v)
    else None
  }

  lemma SchemaFieldsRead(s: S.Schema, w: Json)
    requires Alike(SchemaJson(s), w)
    ensures Fields(w, SchemaKeys(s)).Some?
    ensures forall i :: 0 <= i < |SchemaKeys(s)| ==> AlikeOption(SchemaValues(s)[i], Fields(w, SchemaKeys(s)).value[i])
    ensures StringOf(Field(w.members, TYPE)) == Some(TypeName(s))
  {
    hide Alike, AlikeOption, Record, Present, Number, Names, Listed, TypeName, PropertyMembers, Fields, Field, StringOf;
    SchemaKeysAreDistinct();
    RecordReads(SchemaKeys(s), SchemaValues(s), w);
    var v, f := SchemaValues(s), Fields(w, SchemaKeys(s)).value;
    assert v[0] == Some(Str(TypeName(s))) && f[0] == Field(w.members, TYPE);
    assert AlikeOption(v[0], f[0]);
    StringReads(TypeName(s), f[0]);
  }

  /** What the value is read as differs from the schema in written order at most. */
  ghost predicate ReadsAs(v: Json, s: S.Schema) { ReadSchema(v).Some? && S.Same(s, ReadSchema(v).value) }

  lemma FlatReads(s: S.Schema, w: Json)
    requires !s.ArraySchema? && !s.ObjectSchema? && Alike(SchemaJson(s), w)
    ensures ReadsAs(w, s)
  {
    hide Alike, Number, NumberOf, Names, Listed, PropertyMembers, SchemaJson, AlikeOption, Field, Fields, ListOf, ReadArraySchema, ReadObjectSchema;
    SchemaFieldsRead(s, w);
    TypeNamesDiffer();
    var v, f := SchemaValues(s), Fields(w, SchemaKeys(s)).value;
    if s.TextSchema? {
      assert AlikeOption(v[1], f[1]) && AlikeOption(v[2], f[2]);
      NumberReads(s.minLength, f[1]);
      NumberReads(s.maxLength, f[2]);
    } else if s.NumberSchema? {
      assert AlikeOption(v[1], f[1]) && AlikeOption(v[2], f[2]);
      NumberReads(s.minimum, f[1]);
      NumberReads(s.maximum, f[2]);
    } else if s.EnumSchema? {
      assert AlikeOption(v[1], f[1]);
      StringsRead(s.values);
      ListReads(StrOf, StringIn, s.values, f[1]);
    }
  }

  lemma ValueIsThere(v: Json, w: Option<Json>)
    requires AlikeOption(Some(v), w)
    ensures w.Some? && Alike(v, w.value)
  {
  }

  lemma ArrayReads(s: S.Schema, w: Json)
    requires s.ArraySchema? && Alike(SchemaJson(s), w)
    ensures ReadsAs(w, s)
    decreases s, 0
  {
    hide Alike, Number, NumberOf, AlikeOption, Field, Fields, SchemaJson;
    SchemaFieldsRead(s, w);
    TypeNamesDiffer();
    var v, f := SchemaValues(s), Fields(w, ARRAY_KEYS).value;
    assert AlikeOption(v[1], f[1]) && AlikeOption(v[2], f[2]) && AlikeOption(v[3], f[3]);
    ValueIsThere(SchemaJson(s.items), f[1]);
    SchemaReads(s.items, f[1].value);
    NumberReads(s.minItems, f[2]);
    NumberReads(s.maxItems, f[3]);
    assert ReadArraySchema(w) == Some(S.ArraySchema(ReadSchema(f[1].value).value, s.minItems, s.maxItems));
  }

  lemma {:induction false} EachPropertyReads(members: seq<Member>)
    requires forall m :: m in members ==> ReadSchema(m.value).Some?
    ensures ReadProperties(members).Some? && |ReadProperties(members).value| == |members|
    ensures forall j :: 0 <= j < |members| ==>
                          ReadProperties(members).value[j] == S.Property(members[j].key, ReadSchema(members[j].value).value)
  {
    hide ReadSchema;
    if members != [] {
      assert members[0] in members;
      EachPropertyReads(members[1..]);
    }
  }

  lemma {:induction false} PropertyReads(p: seq<S.Property>, q: seq<Member>, r: seq<S.Property>, i: nat)
    requires i < |p| && Alike(Obj(PropertyMembers(p)), Obj(q)) && |r| == |q|
    requires forall v :: Alike(SchemaJson(p[i].schema), v) ==> ReadsAs(v, p[i].schema)
    requires forall j :: 0 <= j < |q| ==> ReadSchema(q[j].value).Some? && r[j] == S.Property(q[j].key, ReadSchema(q[j].value).value)
    ensures S.HasSame(p[i], SortBy(S.NameOf, r))
  {
    hide Alike, SchemaJson, ReadSchema;
    var m := PropertyMembers(p)[i];
    Counterpart(PropertyMembers(p), q, m);
    var n :| n in q && n.key == m.key && Alike(m.value, n.value);
    var j :| 0 <= j < |q| && q[j] == n;
    SortByProperties(S.NameOf, r);
    assert ReadsAs(n.value, p[i].schema) && r[j] in r;
  }

  ghost predicate PropertySchemasRead(p: seq<S.Property>) {
    forall x, v :: x in p && Alike(SchemaJson(x.schema), v) ==> ReadsAs(v, x.schema)
  }

  lemma {:induction false} MemberReads(p: seq<S.Property>, q: seq<Member>, m: Member)
    requires Alike(Obj(PropertyMembers(p)), Obj(q)) && PropertySchemasRead(p) && m in q
    ensures ReadSchema(m.value).Some?
  {
    hide Alike, SchemaJson, ReadSchema, S.Same;
    AlikeIsSymmetric(Obj(PropertyMembers(p)), Obj(q));
    Counterpart(q, PropertyMembers(p), m);
    var n :| n in PropertyMembers(p) && n.key == m.key && Alike(m.value, n.value);
    var i :| 0 <= i < |p| && PropertyMembers(p)[i] == n;
    AlikeIsSymmetric(m.value, n.value);
    assert p[i] in p && ReadsAs(m.value, p[i].schema);
  }

  /** However the properties are ordered, they are read as the same properties. */
  lemma {:induction false} PropertiesRead(p: seq<S.Property>, q: seq<Member>)
    requires Alike(Obj(PropertyMembers(p)), Obj(q)) && PropertySchemasRead(p)
    ensures ReadProperties(q).Some? && |SortBy(S.NameOf, ReadProperties(q).value)| == |p|
    ensures forall i :: 0 <= i < |p| ==> S.HasSame(p[i], SortBy(S.NameOf, ReadProperties(q).value))
  {
    hide Alike, PropertyMembers, SchemaJson, ReadSchema, ReadProperties, SortBy, S.HasSame, ReadsAs;
    forall m | m in q { MemberReads(p, q, m); }
    EachPropertyReads(q);
    var r := ReadProperties(q).value;
    SortByProperties(S.NameOf, r);
    assert |ObjectMembers(Obj(PropertyMembers(p)), Obj(q))| == |p|;
    forall i | 0 <= i < |p|
      ensures S.HasSame(p[i], SortBy(S.NameOf, r))
    {
      assert p[i] in p;
      PropertyReads(p, q, r, i);
    }
  }

  lemma ObjectReads(s: S.Schema, w: Json)
    requires s.ObjectSchema? && Alike(SchemaJson(s), w)
    ensures ReadsAs(w, s)
    decreases s, 0
  {
    hide Alike, Names, NamesOf, AlikeOption, Field, Fields, SchemaJson, PropertyMembers, SortBy, ReadProperties, S.HasSame;
    SchemaFieldsRead(s, w);
    TypeNamesDiffer();
    var v, f := SchemaValues(s), Fields(w, OBJECT_KEYS).value;
    assert AlikeOption(v[1], f[1]) && AlikeOption(v[2], f[2]);
    var p := s.properties;
    ValueIsThere(Obj(PropertyMembers(p)), f[1]);
    var q := ObjectMembers(Obj(PropertyMembers(p)), f[1].value);
    forall x, v | x in p && Alike(SchemaJson(x.schema), v)
      ensures ReadsAs(v, x.schema)
    {
      SchemaReads(x.schema, v);
    }
    PropertiesRead(p, q);
    NamesRead(s.required, f[2]);
    assert ReadSchema(w) == Some(S.ObjectSchema(SortBy(S.NameOf, ReadProperties(q).value), s.required));
  }

  /** Whatever value is like a schema's JSON is read as the schema, up to written order. */
  lemma {:induction false} SchemaReads(s: S.Schema, w: Json)
    requires Alike(SchemaJson(s), w)
    ensures ReadsAs(w, s)
    decreases s, 1
  {
    hide Alike, SchemaJson, ReadSchema, ReadsAs;
    if s.ArraySchema? {
      ArrayReads(s, w);
    } else if s.ObjectSchema? {
      ObjectReads(s, w);
    } else {
      FlatReads(s, w);
    }
  }

  lemma SchemaRecordWritten(s: S.Schema, v: Json)
    requires Printable(v) && Fields(v, SchemaKeys(s)).Some? && StringOf(Field(v.members, TYPE)) == Some(TypeName(s))
    requires forall i :: 1 <= i < |SchemaKeys(s)| ==> AlikeOption(SchemaValues(s)[i], Fields(v, SchemaKeys(s)).value[i])
    ensures Alike(SchemaJson(s), v)
  {
    hide Alike, AlikeOption, Record, Present, Number, Names, Listed, TypeName, PropertyMembers, Fields, Field, StringOf, Printable, PrintableOption;
    SchemaKeysAreDistinct();
    FieldsPrint(v, SchemaKeys(s));
    var values, f := SchemaValues(s), Fields(v, SchemaKeys(s)).value;
    assert SchemaKeys(s)[0] == TYPE && values[0] == Some(Str(TypeName(s)));
    assert PrintableOption(f[0]) && f[0] == Field(v.members, TYPE);
    StringWritten(f[0], TypeName(s));
    RecordWritten(SchemaKeys(s), values, v);
  }

  /** The type read is the type that was written. */
  lemma ReadByType(v: Json, s: S.Schema)
    requires ReadSchema(v) == Some(s)
    ensures v.Obj? && StringOf(Field(v.members, TYPE)) == Some(TypeName(s))
    ensures s.TextSchema? ==> ReadTextSchema(v) == Some(s)
    ensures s.NumberSchema? ==> ReadNumberSchema(v, s.integer) == Some(s)
    ensures s.BooleanSchema? ==> ReadBooleanSchema(v) == Some(s)
    ensures s.EnumSchema? ==> ReadEnumSchema(v) == Some(s)
    ensures s.ArraySchema? ==> ReadArraySchema(v) == Some(s)
    ensures s.ObjectSchema? ==> ReadObjectSchema(v) == Some(s)
  {
    hide Fields, Field, NumberOf, ListOf, NamesOf, SortBy, ReadProperties, StringOf;
    TypeNamesDiffer();
  }

  lemma FlatWritten(v: Json, s: S.Schema)
    requires ReadSchema(v) == Some(s) && Printable(v) && !s.ArraySchema? && !s.ObjectSchema?
    ensures Alike(SchemaJson(s), v)
  {
    hide Alike, AlikeOption, Number, NumberOf, Names, Listed, SchemaJson, Field, Fields, ReadAll, Printable, PrintableOption;
    hide PropertyMembers, ReadSchema;
    ReadByType(v, s);
    FieldsPrint(v, SchemaKeys(s));
    var f := Fields(v, SchemaKeys(s)).value;
    assert forall i :: 0 <= i < |f| ==> PrintableOption(f[i]);
    if s.TextSchema? {
      NumberWritten(f[1], s.minLength);
      NumberWritten(f[2], s.maxLength);
    } else if s.NumberSchema? {
      NumberWritten(f[1], s.minimum);
      NumberWritten(f[2], s.maximum);
    } else if s.EnumSchema? {
      StringsWritten(f[1].value.items);
      RequiredListWritten(StrOf, StringIn, f[1], s.values);
    }
    SchemaRecordWritten(s, v);
  }

  lemma ArrayWritten(v: Json, s: S.Schema)
    requires ReadSchema(v) == Some(s) && Printable(v) && s.ArraySchema?
    ensures Alike(SchemaJson(s), v)
    decreases v, 0
  {
    hide Alike, Number, NumberOf, SchemaJson, Field, Fields, Printable, ReadSchema;
    ReadByType(v, s);
    FieldsPrint(v, ARRAY_KEYS);
    var f := Fields(v, ARRAY_KEYS).value;
    assert PrintableOption(f[1]) && PrintableOption(f[2]) && PrintableOption(f[3]);
    assert Member(ARRAY_KEYS[1], f[1].value) in v.members;
    SchemaWritten(f[1].value, s.items);
    NumberWritten(f[2], s.minItems);
    NumberWritten(f[3], s.maxItems);
    SchemaRecordWritten(s, v);
  }

  lemma {:induction false} PropertiesWereRead(members: seq<Member>, r: seq<S.Property>)
    requires ReadProperties(members) == Some(r)
    ensures |r| == |members|
    ensures forall j :: 0 <= j < |r| ==> r[j].name == members[j].key && ReadSchema(members[j].value) == Some(r[j].schema)
  {
    hide ReadSchema;
    if members != [] { PropertiesWereRead(members[1..], r[1..]); }
  }

  lemma PropertyWritten(r: seq<S.Property>, q: seq<Member>, m: Member)
    requires |r| == |q| && DistinctKeys(q) && m in PropertyMembers(SortBy(S.NameOf, r)) && Printable(Obj(q))
    requires forall j :: 0 <= j < |q| ==> r[j].name == q[j].key && Alike(SchemaJson(r[j].schema), q[j].value)
    ensures C.HasSame(m, q) && WellFormed(m.key) && Printable(m.value)
  {
    hide SchemaJson, SortBy;
    SortByProperties(S.NameOf, r);
    var p := SortBy(S.NameOf, r);
    var i :| 0 <= i < |p| && PropertyMembers(p)[i] == m;
    assert p[i] in r;
    var j :| 0 <= j < |r| && r[j] == p[i];
    assert Alike(SchemaJson(r[j].schema), q[j].value);
  }

  /** The properties in the order of their names are like the members they were read from. */
  lemma {:induction false} PropertiesWritten(r: seq<S.Property>, q: seq<Member>)
    requires |r| == |q| && Printable(Obj(q))
    requires forall j :: 0 <= j < |q| ==> r[j].name == q[j].key && Alike(SchemaJson(r[j].schema), q[j].value)
    ensures Alike(Obj(PropertyMembers(SortBy(S.NameOf, r))), Obj(q))
  {
    hide SchemaJson, SortBy, DistinctBy;
    var sorted := SortBy(S.NameOf, r);
    var p := PropertyMembers(sorted);
    SortByProperties(S.NameOf, r);
    NamesLikeKeys(r, q);
    SortedStaysDistinct(S.NameOf, r);
    NamesLikeKeys(sorted, p);
    forall i | 0 <= i < |p|
      ensures C.HasSame(p[i], q) && WellFormed(p[i].key) && Printable(p[i].value)
    {
      PropertyWritten(r, q, p[i]);
    }
  }

  lemma NamesLikeKeys(r: seq<S.Property>, q: seq<Member>)
    requires |r| == |q| && forall j :: 0 <= j < |q| ==> r[j].name == q[j].key
    ensures DistinctKeys(q) <==> DistinctBy(S.NameOf, r)
  {
    assert forall j :: 0 <= j < |q| ==> S.NameOf(r[j]) == q[j].key;
  }

  lemma ObjectWritten(v: Json, s: S.Schema)
    requires ReadSchema(v) == Some(s) && Printable(v) && s.ObjectSchema?
    ensures Alike(SchemaJson(s), v)
    decreases v, 0
  {
    hide Alike, Names, NamesOf, SchemaJson, PropertyMembers, SortBy, Field, Fields, Printable, ReadSchema, ReadProperties;
    ReadByType(v, s);
    FieldsPrint(v, OBJECT_KEYS);
    var f := Fields(v, OBJECT_KEYS).value;
    assert PrintableOption(f[1]) && PrintableOption(f[2]);
    assert Member(OBJECT_KEYS[1], f[1].value) in v.members;
    var q := f[1].value.members;
    var r := ReadProperties(q).value;
    PropertiesWereRead(q, r);
    forall j | 0 <= j < |q|
      ensures Alike(SchemaJson(r[j].schema), q[j].value)
    {
      MemberPrints(q, q[j]);
      SchemaWritten(q[j].value, r[j].schema);
    }
    PropertiesWritten(r, q);
    NamesWritten(f[2], s.required);
    SchemaRecordWritten(s, v);
  }

  /** What a schema was read from is like the schema's JSON. */
  lemma {:induction false} SchemaWritten(v: Json, s: S.Schema)
    requires ReadSchema(v) == Some(s) && Printable(v)
    ensures Alike(SchemaJson(s), v)
    decreases v, 1
  {
    hide Alike, SchemaJson, ReadSchema, Printable;
    if s.ArraySchema? {
      ArrayWritten(v, s);
    } else if s.ObjectSchema? {
      ObjectWritten(v, s);
    } else {
      FlatWritten(v, s);
    }
  }

  /** A schema nests at most two levels of JSON for each of its own. */
  lemma {:induction false} SchemaDepth(s: S.Schema, depth: nat)
    requires S.WellShaped(s, depth)
    ensures Depth(SchemaJson(s)) <= 2 * (S.MAX_DEPTH + 1 - depth)
    decreases s
  {
    hide S.PropertyNameOk, S.EnumValueOk, S.RequiredOk, S.Distinct, Record, Listed;
    var most := 2 * (S.MAX_DEPTH - depth) + 1;
    match s {
      case EnumSchema(values) => ListDepth(StrOf, values, 0);
      case ArraySchema(items, _, _) => SchemaDepth(items, depth + 1);
      case ObjectSchema(properties, required) =>
        forall i | 0 <= i < |properties| { SchemaDepth(properties[i].schema, depth + 1); }
        C.DepthBound(PropertyMembers(properties), 2 * (S.MAX_DEPTH - depth));
        NamesDepth(required);
      case _ =>
    }
    RecordDepth(SchemaKeys(s), SchemaValues(s), most);
  }
}
