/** Reading undoes canonical printing; canonical text identifies the value. */
module JsonRoundTrip {
  import opened Options
  import opened JsStrings
  import opened Decimal
  import opened Utf
  import opened Json

  // ----- strings

  function Keep(front: JsString, r: Result<Read<JsString>, ReadError>): Result<Read<JsString>, ReadError> {
    match r
    case Err(e) => Err(e)
    case Ok(tail) => Ok(Read(front + tail.value, tail.rest))
  }

  /** One character that neither ends the string nor is a bare control character. */
  lemma ScanOne(c: CodeUnit, t: JsString, escaped: bool)
    requires escaped || (c >= 0x20 && c != QUOTE)
    ensures ScanString([c] + t, escaped) == Keep([c], ScanString(t, !escaped && c == BACKSLASH))
  {
    assert ([c] + t)[1..] == t;
  }

  lemma KeepBoth(a: JsString, b: JsString, r: Result<Read<JsString>, ReadError>)
    ensures Keep(a, Keep(b, r)) == Keep(a + b, r)
  {
    if r.Ok? { assert a + (b + r.value.value) == a + b + r.value.value; }
  }

  lemma ScanTwo(c: CodeUnit, t: JsString)
    ensures ScanString([BACKSLASH, c] + t, false) == Keep([BACKSLASH, c], ScanString(t, false))
  {
    hide ScanString, Keep;
    assert [BACKSLASH, c] + t == [BACKSLASH] + ([c] + t);
    ScanOne(BACKSLASH, [c] + t, false);
    ScanOne(c, t, true);
    KeepBoth([BACKSLASH], [c], ScanString(t, false));
    assert [BACKSLASH] + [c] == [BACKSLASH, c];
  }

  lemma ScanPlain(a: CodeUnit, b: CodeUnit, t: JsString)
    requires a >= 0x20 && a != QUOTE && a != BACKSLASH && b >= 0x20 && b != QUOTE && b != BACKSLASH
    ensures ScanString([a, b] + t, false) == Keep([a, b], ScanString(t, false))
  {
    hide ScanString, Keep;
    assert [a, b] + t == [a] + ([b] + t);
    ScanOne(a, [b] + t, false);
    ScanOne(b, t, false);
    KeepBoth([a], [b], ScanString(t, false));
    assert [a] + [b] == [a, b];
  }

  lemma ScanEscape(c: CodeUnit, t: JsString)
    ensures ScanString(Escape(c) + t, false) == Keep(Escape(c), ScanString(t, false))
  {
    hide ScanString, Keep;
    if ShortEscape(c).Some? {
      ScanTwo(ShortEscape(c).value, t);
    } else if c < 0x20 {
      var h, l := LowerHex(c / 16), LowerHex(c % 16);
      var last: JsString, middle: JsString := [h, l], [0x30, 0x30];
      assert Escape(c) + t == [BACKSLASH, LOWER_U] + (middle + (last + t));
      ScanTwo(LOWER_U, middle + (last + t));
      ScanPlain(0x30, 0x30, last + t);
      ScanPlain(h, l, t);
      KeepBoth(middle, last, ScanString(t, false));
      KeepBoth([BACKSLASH, LOWER_U], middle + last, ScanString(t, false));
      assert Escape(c) == [BACKSLASH, LOWER_U] + (middle + last);
    } else {
      ScanOne(c, t, false);
    }
  }

  lemma UnescapeControl(c: CodeUnit, t: JsString)
    requires c < 0x20
    ensures Unescape([BACKSLASH, LOWER_U, 0x30, 0x30, LowerHex(c / 16), LowerHex(c % 16)] + t) == Prepend(c, Unescape(t))
  {
    var s := [BACKSLASH, LOWER_U, 0x30, 0x30, LowerHex(c / 16), LowerHex(c % 16)] + t;
    assert s[6..] == t;
    assert HexValue(s[2]) == Some(0) && HexValue(s[3]) == Some(0);
    HexDigits(c);
    assert s[4] == LowerHex(c / 16) && s[5] == LowerHex(c % 16);
  }

  lemma HexDigits(c: CodeUnit)
    requires c < 0x20
    ensures HexValue(LowerHex(c / 16)) == Some(c / 16) && HexValue(LowerHex(c % 16)) == Some(c % 16)
    ensures c / 16 * 16 + c % 16 == c
  {
  }

  lemma UnescapeEscape(c: CodeUnit, t: JsString)
    ensures Unescape(Escape(c) + t) == Prepend(c, Unescape(t))
  {
    var s := Escape(c) + t;
    if ShortEscape(c).Some? {
      assert s[2..] == t;
    } else if c < 0x20 {
      UnescapeControl(c, t);
    } else {
      assert s[1..] == t;
    }
  }

  lemma {:induction false} ScanEscapeAll(s: JsString, rest: JsString)
    ensures ScanString(EscapeAll(s) + [QUOTE] + rest, false) == Ok(Read(EscapeAll(s), rest))
    ensures Unescape(EscapeAll(s)) == Some(s)
  {
    hide ScanString, Unescape, Escape;
    if s == [] {
      ScanNothing(rest);
      assert EscapeAll(s) + [QUOTE] + rest == [QUOTE] + rest;
    } else {
      ScanEscapeAll(s[1..], rest);
      var tail := EscapeAll(s[1..]) + [QUOTE] + rest;
      assert EscapeAll(s) + [QUOTE] + rest == Escape(s[0]) + tail;
      ScanEscape(s[0], tail);
      UnescapeEscape(s[0], EscapeAll(s[1..]));
      assert s == [s[0]] + s[1..];
    }
  }

  lemma ScanNothing(rest: JsString)
    ensures ScanString([QUOTE] + rest, false) == Ok(Read([], rest)) && Unescape([]) == Some([])
  {
    assert ([QUOTE] + rest)[1..] == rest;
  }

  lemma StringRoundTrip(s: JsString, rest: JsString)
    requires WellFormed(s)
    ensures PrintString(s)[0] == QUOTE && (PrintString(s) + rest)[0] == QUOTE
    ensures ReadString((PrintString(s) + rest)[1..]) == Ok(Read(s, rest))
  {
    hide EscapeAll, ScanString, Unescape;
    ScanEscapeAll(s, rest);
    assert (PrintString(s) + rest)[1..] == EscapeAll(s) + [QUOTE] + rest;
  }

  // ----- numbers

  lemma {:induction false} DigitRunOf(d: JsString, rest: JsString)
    requires AllDigits(d) && (rest != [] ==> !IsDigit(rest[0]))
    ensures DigitRun(d + rest) == |d|
  {
    if d != [] {
      DigitRunOf(d[1..], rest);
      assert (d + rest)[1..] == d[1..] + rest;
    } else {
      assert d + rest == rest;
    }
  }

  /** Text that cannot continue a number. */
  predicate EndsNumber(rest: JsString) {
    rest == [] || (!IsDigit(rest[0]) && rest[0] != DOT && rest[0] != 0x65 && rest[0] != 0x45)
  }

  lemma DigitsRoundTrip(n: nat, rest: JsString)
    requires EndsNumber(rest)
    ensures IntegerRun(Digits(n) + rest) == |Digits(n)|
    ensures (Digits(n) + rest)[..|Digits(n)|] == Digits(n) && (Digits(n) + rest)[|Digits(n)|..] == rest
    ensures ValueOf(Digits(n)) == n && !FractionFollows(rest)
  {
    DigitRunOf(Digits(n), rest);
    ValueOfDigits(n);
    assert n > 0 ==> (Digits(n) + rest)[0] == Digits(n)[0];
  }

  lemma NumberRoundTrip(n: int, rest: JsString)
    requires Safe(n) && EndsNumber(rest)
    ensures ReadNumber(PrintNumber(n) + rest) == Ok(Read(n, rest))
  {
    hide Digits, DigitRun, IntegerRun, ValueOf, FractionFollows;
    var magnitude: nat := if n < 0 then -n else n;
    var body := Digits(magnitude) + rest;
    DigitsRoundTrip(magnitude, rest);
    assert body[0] == Digits(magnitude)[0] && IsDigit(body[0]);
    if n < 0 {
      assert PrintNumber(n) + rest == [MINUS] + body;
      assert ([MINUS] + body)[1..] == body;
    }
  }

  // ----- values

  function Expected<T>(value: T, rest: JsString, within: bool): Result<Read<T>, ReadError> {
    if within then Ok(Read(value, rest)) else Err(NestingLimit)
  }

  lemma SkipNothing(s: JsString)
    requires s != [] && !IsSpace(s[0])
    ensures SkipSpace(s) == s
  {
  }

  lemma PrintStart(v: Json)
    ensures !IsSpace(Print(v)[0]) && Print(v)[0] != CLOSE_ARRAY && Print(v)[0] != COMMA
  {
  }

  lemma ScalarReads(v: Json, rest: JsString, depth: nat, limit: nat)
    requires Printable(v) && !v.Arr? && !v.Obj? && EndsNumber(rest)
    ensures ReadValue(Print(v) + rest, depth, limit) == Expected(v, rest, depth <= limit)
  {
    var s := Print(v) + rest;
    PrintStart(v);
    assert s[0] == Print(v)[0];
    SkipNothing(s);
    match v {
      case Null => assert s[..4] == NULL && s[4..] == rest;
      case Bool(b) => if b { assert s[..4] == TRUE && s[4..] == rest; } else { assert s[..5] == FALSE && s[5..] == rest; }
      case Num(n) =>
        NumberRoundTrip(n, rest);
        assert s[0] == MINUS || IsDigit(s[0]);
      case Str(t) => StringRoundTrip(t, rest);
    }
  }

  lemma ArrayEntered(items: seq<Json>, rest: JsString, depth: nat, limit: nat)
    requires items != [] && depth <= limit
    ensures ReadValue(Print(Arr(items)) + rest, depth, limit)
            == ReadItems(PrintItems(items) + [CLOSE_ARRAY] + rest, depth + 1, limit, [])
  {
    hide ReadItems, ReadMembers, ReadString, ReadNumber;
    var s := Print(Arr(items)) + rest;
    assert s[0] == OPEN_ARRAY;
    SkipNothing(s);
    var inner := PrintItems(items) + [CLOSE_ARRAY] + rest;
    assert s[1..] == inner;
    PrintStart(items[0]);
    assert inner[0] == Print(items[0])[0];
    SkipNothing(inner);
  }

  lemma ObjectEntered(members: seq<Member>, rest: JsString, depth: nat, limit: nat)
    requires members != [] && depth <= limit
    ensures ReadValue(Print(Obj(members)) + rest, depth, limit)
            == ReadMembers(PrintMembers(members) + [CLOSE_OBJECT] + rest, depth + 1, limit, [])
  {
    hide ReadItems, ReadMembers, ReadString, ReadNumber, EscapeAll;
    var s := Print(Obj(members)) + rest;
    assert s[0] == OPEN_OBJECT;
    SkipNothing(s);
    var inner := PrintMembers(members) + [CLOSE_OBJECT] + rest;
    assert s[1..] == inner;
    assert inner[0] == PrintMember(members[0])[0] == PrintString(members[0].key)[0] == QUOTE;
    SkipNothing(inner);
  }

  lemma EmptyReads(v: Json, rest: JsString, depth: nat, limit: nat)
    requires v == Arr([]) || v == Obj([])
    ensures ReadValue(Print(v) + rest, depth, limit) == Expected(v, rest, depth <= limit)
  {
    hide ReadItems, ReadMembers, ReadString, ReadNumber;
    var s := Print(v) + rest;
    SkipNothing(s);
    assert s[1..] == [if v.Arr? then CLOSE_ARRAY else CLOSE_OBJECT] + rest;
    SkipNothing(s[1..]);
    assert s[1..][1..] == rest;
  }

  lemma PrintableParts(v: Json)
    requires Printable(v)
    ensures v.Arr? ==> forall i :: 0 <= i < |v.items| ==> Printable(v.items[i])
    ensures v.Obj? ==> DistinctKeys(v.members)
    ensures v.Obj? ==> forall i :: 0 <= i < |v.members| ==> WellFormed(v.members[i].key) && Printable(v.members[i].value)
  {
  }

  lemma TooDeep(s: JsString, depth: nat, limit: nat)
    requires depth > limit
    ensures ReadValue(s, depth, limit) == Err(NestingLimit)
  {
  }

  /** Reading printed text gives the value back when the nesting fits, and otherwise fails
      for that reason alone. */
  lemma {:induction false} ValueReads(v: Json, rest: JsString, depth: nat, limit: nat)
    requires Printable(v) && EndsNumber(rest)
    ensures ReadValue(Print(v) + rest, depth, limit) == Expected(v, rest, depth + Depth(v) <= limit)
    decreases v, 1
  {
    hide Print, ReadValue, Printable;
    if depth > limit {
      TooDeep(Print(v) + rest, depth, limit);
    } else if v == Arr([]) || v == Obj([]) {
      EmptyReads(v, rest, depth, limit);
    } else if v.Arr? {
      ArrayReads(v, rest, depth, limit);
    } else if v.Obj? {
      ObjectReads(v, rest, depth, limit);
    } else {
      ScalarReads(v, rest, depth, limit);
    }
  }

  lemma ArrayReads(v: Json, rest: JsString, depth: nat, limit: nat)
    requires Printable(v) && EndsNumber(rest) && v.Arr? && v.items != [] && depth <= limit
    ensures ReadValue(Print(v) + rest, depth, limit) == Expected(v, rest, depth + Depth(v) <= limit)
    decreases v, 0, |v.items| + 1
  {
    hide Print, ReadItems, ReadValue, Printable, PrintItems;
    PrintableParts(v);
    ArrayEntered(v.items, rest, depth, limit);
    ItemsRead(v, v.items, [], rest, depth + 1, limit);
    assert [] + v.items == v.items;
  }

  lemma ObjectReads(v: Json, rest: JsString, depth: nat, limit: nat)
    requires Printable(v) && EndsNumber(rest) && v.Obj? && v.members != [] && depth <= limit
    ensures ReadValue(Print(v) + rest, depth, limit) == Expected(v, rest, depth + Depth(v) <= limit)
    decreases v, 0, |v.members| + 1
  {
    hide Print, ReadMembers, ReadValue, Printable, PrintMembers;
    PrintableParts(v);
    ObjectEntered(v.members, rest, depth, limit);
    assert [] + v.members == v.members;
    MembersRead(v, v.members, [], rest, depth + 1, limit);
  }

  lemma {:induction false} ItemsRead(v: Json, items: seq<Json>, before: seq<Json>, rest: JsString, depth: nat, limit: nat)
    requires v.Arr? && |items| > 0 && forall i :: 0 <= i < |items| ==> items[i] in v.items && Printable(items[i])
    ensures ReadItems(PrintItems(items) + [CLOSE_ARRAY] + rest, depth, limit, before)
            == Expected(Arr(before + items), rest, depth + ItemsDepth(items) <= limit)
    decreases v, 0, |items|
  {
    var s := PrintItems(items) + [CLOSE_ARRAY] + rest;
    assert items[0] in v.items;
    if |items| == 1 {
      var tail := [CLOSE_ARRAY] + rest;
      assert s == Print(items[0]) + tail;
      ValueReads(items[0], tail, depth, limit);
      assert tail[1..] == rest;
      assert before + items == before + [items[0]];
    } else {
      var next := PrintItems(items[1..]) + [CLOSE_ARRAY] + rest;
      var tail := [COMMA] + next;
      assert s == Print(items[0]) + tail;
      ValueReads(items[0], tail, depth, limit);
      assert tail[1..] == next;
      ItemsRead(v, items[1..], before + [items[0]], rest, depth, limit);
      assert before + [items[0]] + items[1..] == before + items;
    }
  }

  lemma FreshKey(before: seq<Member>, m: Member, after: seq<Member>)
    requires DistinctKeys(before + [m] + after)
    ensures !HasKey(before, m.key)
  {
    var all := before + [m] + after;
    assert all[|before|] == m;
    assert forall i :: 0 <= i < |before| ==> all[i] == before[i];
  }

  lemma LastMemberRead(text: JsString, m: Member, rest: JsString, depth: nat, limit: nat, before: seq<Member>, fits: bool)
    requires ReadMember(text, depth, limit, before) == Expected(m, [CLOSE_OBJECT] + rest, fits)
    ensures ReadMembers(text, depth, limit, before) == Expected(Obj(before + [m]), rest, fits)
  {
    hide ReadMember;
    SkipNothing([CLOSE_OBJECT] + rest);
    assert ([CLOSE_OBJECT] + rest)[1..] == rest;
  }

  lemma NextMemberRead(text: JsString, m: Member, next: JsString, depth: nat, limit: nat, before: seq<Member>, fits: bool)
    requires ReadMember(text, depth, limit, before) == Expected(m, [COMMA] + next, fits)
    ensures ReadMembers(text, depth, limit, before)
            == if fits then ReadMembers(next, depth, limit, before + [m]) else Err(NestingLimit)
  {
    hide ReadMember;
    SkipNothing([COMMA] + next);
    assert ([COMMA] + next)[1..] == next;
  }

  lemma {:induction false} MembersRead(v: Json, members: seq<Member>, before: seq<Member>, rest: JsString, depth: nat, limit: nat)
    requires v.Obj? && |members| > 0 && forall i :: 0 <= i < |members| ==> members[i] in v.members
    requires forall i :: 0 <= i < |members| ==> WellFormed(members[i].key) && Printable(members[i].value)
    requires DistinctKeys(before + members)
    ensures ReadMembers(PrintMembers(members) + [CLOSE_OBJECT] + rest, depth, limit, before)
            == Expected(Obj(before + members), rest, depth + MembersDepth(members) <= limit)
    decreases v, 0, |members|
  {
    hide ReadMember, ReadMembers, Print, PrintMember, Depth, Printable, HasKey;
    var s := PrintMembers(members) + [CLOSE_OBJECT] + rest;
    var m := members[0];
    var fits := depth + Depth(m.value) <= limit;
    assert before + members == before + [m] + members[1..];
    FreshKey(before, m, members[1..]);
    if |members| == 1 {
      assert s == PrintMember(m) + ([CLOSE_OBJECT] + rest);
      MemberReads(v, m, before, [CLOSE_OBJECT] + rest, depth, limit);
      LastMemberRead(s, m, rest, depth, limit, before, fits);
      assert members[1..] == [] && before + [m] + [] == before + [m];
      assert MembersDepth(members) == Depth(m.value);
    } else {
      var next := PrintMembers(members[1..]) + [CLOSE_OBJECT] + rest;
      assert s == PrintMember(m) + ([COMMA] + next);
      MemberReads(v, m, before, [COMMA] + next, depth, limit);
      NextMemberRead(s, m, next, depth, limit, before, fits);
      MembersRead(v, members[1..], before + [m], rest, depth, limit);
    }
  }

  lemma {:induction false} MemberReads(v: Json, m: Member, before: seq<Member>, tail: JsString, depth: nat, limit: nat)
    requires v.Obj? && m in v.members && WellFormed(m.key) && Printable(m.value) && EndsNumber(tail)
    requires !HasKey(before, m.key)
    ensures ReadMember(PrintMember(m) + tail, depth, limit, before) == Expected(m, tail, depth + Depth(m.value) <= limit)
    decreases v, 0, 0
  {
    hide ReadString, EscapeAll, ReadValue, Print;
    var value := Print(m.value) + tail;
    var s := PrintMember(m) + tail;
    assert s == PrintString(m.key) + ([COLON] + value);
    StringRoundTrip(m.key, [COLON] + value);
    SkipNothing(s);
    SkipNothing([COLON] + value);
    assert ([COLON] + value)[1..] == value;
    ValueReads(m.value, tail, depth, limit);
  }
}
