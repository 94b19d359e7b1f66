/** JSON values, their canonical text (section 3.2 of RFC 8785) and the strict reading of
    text back into values (RFC 8259), as pure functions. Numbers are safe integers. */
module Json {
  import opened Options
  import opened JsStrings
  import opened Decimal
  import opened Utf

  /** Members keep the order they were written in. */
  datatype Json =
    | Null
    | Bool(truth: bool)
    | Num(number: int)
    | Str(text: JsString)
    | Arr(items: seq<Json>)
    | Obj(members: seq<Member>)

  datatype Member = Member(key: JsString, value: Json)

  predicate Safe(n: int) { -MAX_SAFE_INTEGER <= n <= MAX_SAFE_INTEGER }

  function KeyOf(m: Member): JsString { m.key }

  predicate DistinctKeys(members: seq<Member>) {
    forall i, j :: 0 <= i < j < |members| ==> members[i].key != members[j].key
  }

  /** A value the printer accepts: safe numbers, no lone surrogate, no repeated key. */
  predicate Printable(v: Json) {
    match v
    case Num(n) => Safe(n)
    case Str(s) => WellFormed(s)
    case Arr(items) => forall i :: 0 <= i < |items| ==> Printable(items[i])
    case Obj(members) =>
      && DistinctKeys(members)
      && forall i :: 0 <= i < |members| ==> WellFormed(members[i].key) && Printable(members[i].value)
    case _ => true
  }

  /** How far below its own level the reader enters values. */
  function Depth(v: Json): nat {
    match v
    case Arr(items) => if items == [] then 0 else 1 + ItemsDepth(items)
    case Obj(members) => if members == [] then 0 else 1 + MembersDepth(members)
    case _ => 0
  }

  function ItemsDepth(items: seq<Json>): nat {
    if items == [] then 0 else
      var d, e := Depth(items[0]), ItemsDepth(items[1..]);
      if d < e then e else d
  }

  function MembersDepth(members: seq<Member>): nat {
    if members == [] then 0 else
      var d, e := Depth(members[0].value), MembersDepth(members[1..]);
      if d < e then e else d
  }

  // ----- characters

  const QUOTE: CodeUnit := 0x22
  const COMMA: CodeUnit := 0x2C
  const MINUS: CodeUnit := 0x2D
  const DOT: CodeUnit := 0x2E
  const COLON: CodeUnit := 0x3A
  const OPEN_ARRAY: CodeUnit := 0x5B
  const BACKSLASH: CodeUnit := 0x5C
  const CLOSE_ARRAY: CodeUnit := 0x5D
  const LOWER_U: CodeUnit := 0x75
  const OPEN_OBJECT: CodeUnit := 0x7B
  const CLOSE_OBJECT: CodeUnit := 0x7D
  const TRUE: JsString := [0x74, 0x72, 0x75, 0x65]
  const FALSE: JsString := [0x66, 0x61, 0x6C, 0x73, 0x65]
  const NULL: JsString := [0x6E, 0x75, 0x6C, 0x6C]

  function HexUnit(a: int, b: int, c: int, d: int): CodeUnit
    requires 0 <= a < 16 && 0 <= b < 16 && 0 <= c < 16 && 0 <= d < 16
  {
    a * 0x1000 + b * 0x100 + c * 0x10 + d
  }

  function HexValue(c: CodeUnit): (n: Option<int>)
    ensures n.Some? ==> 0 <= n.value < 16
  {
    if 0x30 <= c <= 0x39 then Some(c - 0x30)
    else if 0x41 <= c <= 0x46 then Some(c - 0x37)
    else if 0x61 <= c <= 0x66 then Some(c - 0x57)
    else None
  }

  /** The letter of a two-character escape, for the characters that have one. */
  function ShortEscape(c: CodeUnit): Option<CodeUnit> {
    if c == 0x22 then Some(0x22)
    else if c == 0x5C then Some(0x5C)
    else if c == 0x08 then Some(0x62)
    else if c == 0x0C then Some(0x66)
    else if c == 0x0A then Some(0x6E)
    else if c == 0x0D then Some(0x72)
    else if c == 0x09 then Some(0x74)
    else None
  }

  /** The character a two-character escape stands for; the reader also takes `\/`. */
  function Unescaped(c: CodeUnit): Option<CodeUnit> {
    if c == 0x22 then Some(0x22)
    else if c == 0x5C then Some(0x5C)
    else if c == 0x2F then Some(0x2F)
    else if c == 0x62 then Some(0x08)
    else if c == 0x66 then Some(0x0C)
    else if c == 0x6E then Some(0x0A)
    else if c == 0x72 then Some(0x0D)
    else if c == 0x74 then Some(0x09)
    else None
  }

  // ----- printing

  function Escape(c: CodeUnit): JsString {
    if ShortEscape(c).Some? then [BACKSLASH, ShortEscape(c).value]
    else if c < 0x20 then [BACKSLASH, LOWER_U, 0x30, 0x30, LowerHex(c / 16), LowerHex(c % 16)]
    else [c]
  }

  function EscapeAll(s: JsString): JsString {
    if s == [] then [] else Escape(s[0]) + EscapeAll(s[1..])
  }

  function PrintString(s: JsString): JsString { [QUOTE] + EscapeAll(s) + [QUOTE] }

  function PrintNumber(n: int): JsString {
    if n < 0 then [MINUS] + Digits(-n) else Digits(n)
  }

  /** The text of a value with its members in the order given. */
  function Print(v: Json): (s: JsString)
    ensures s != []
    decreases v
  {
    match v
    case Null => NULL
    case Bool(b) => if b then TRUE else FALSE
    case Num(n) => PrintNumber(n)
    case Str(s) => PrintString(s)
    case Arr(items) => [OPEN_ARRAY] + PrintItems(items) + [CLOSE_ARRAY]
    case Obj(members) => [OPEN_OBJECT] + PrintMembers(members) + [CLOSE_OBJECT]
  }

  function PrintItems(items: seq<Json>): JsString {
    if items == [] then []
    else if |items| == 1 then Print(items[0])
    else Print(items[0]) + [COMMA] + PrintItems(items[1..])
  }

  function PrintMember(m: Member): JsString {
    PrintString(m.key) + [COLON] + Print(m.value)
  }

  function PrintMembers(members: seq<Member>): JsString {
    if members == [] then []
    else if |members| == 1 then PrintMember(members[0])
    else PrintMember(members[0]) + [COMMA] + PrintMembers(members[1..])
  }

  /** Every object with its members in code unit order of their keys. */
  function Normal(v: Json): Json
    decreases v
  {
    match v
    case Arr(items) => Arr(NormalItems(items))
    case Obj(members) => Obj(SortBy(KeyOf, NormalMembers(members)))
    case _ => v
  }

  function NormalItems(items: seq<Json>): (r: seq<Json>)
    ensures |r| == |items|
    ensures forall i :: 0 <= i < |items| ==> r[i] == Normal(items[i])
  {
    if items == [] then [] else [Normal(items[0])] + NormalItems(items[1..])
  }

  function NormalMembers(members: seq<Member>): (r: seq<Member>)
    ensures |r| == |members|
    ensures forall i :: 0 <= i < |members| ==> r[i] == Member(members[i].key, Normal(members[i].value))
  {
    if members == [] then [] else [Member(members[0].key, Normal(members[0].value))] + NormalMembers(members[1..])
  }

  predicate SomeStringIsIllFormed(v: Json) {
    match v
    case Str(s) => !WellFormed(s)
    case Arr(items) => exists i :: 0 <= i < |items| && SomeStringIsIllFormed(items[i])
    case Obj(members) =>
      exists i :: 0 <= i < |members| && (!WellFormed(members[i].key) || SomeStringIsIllFormed(members[i].value))
    case _ => false
  }

  datatype PrintError = LoneSurrogateInValue

  function Canonicalize(v: Json): Result<JsString, PrintError> {
    if SomeStringIsIllFormed(v) then Err(LoneSurrogateInValue) else Ok(Print(Normal(v)))
  }

  // ----- reading

  datatype ReadError =
    | TrailingContent | NestingLimit | OutOfRange | InvalidJson | InvalidEscape | LoneSurrogate
    | ControlCharacter | Unterminated | KeyNotString | DuplicateMember(key: JsString)
    | ExpectedColon | ExpectedCommaOrObjectEnd | ExpectedCommaOrArrayEnd
    | FractionNotModelled

  const NESTING_LIMIT: nat := 128

  /** A value read from the front of a text, and what is left. */
  datatype Read<T> = Read(value: T, rest: JsString)

  predicate IsSpace(c: CodeUnit) { c == 0x20 || c == 0x09 || c == 0x0A || c == 0x0D }

  function SkipSpace(s: JsString): (r: JsString)
    ensures |r| <= |s|
    ensures r != [] ==> !IsSpace(r[0])
  {
    if s != [] && IsSpace(s[0]) then SkipSpace(s[1..]) else s
  }

  predicate StartsWith(s: JsString, c: CodeUnit) { s != [] && s[0] == c }

  function DigitRun(s: JsString): (n: nat)
    ensures n <= |s| && AllDigits(s[..n])
    ensures n < |s| ==> !IsDigit(s[n])
  {
    if s != [] && IsDigit(s[0]) then
      var m := DigitRun(s[1..]);
      assert s[..1 + m] == [s[0]] + s[1..][..m];
      1 + m
    else 0
  }

  /** Length of the integer part at the front: a lone zero, or a run not starting with one. */
  function IntegerRun(s: JsString): (n: nat)
    ensures n <= |s| && AllDigits(s[..n])
  {
    if StartsWith(s, 0x30) then 1 else DigitRun(s)
  }

  /** A fraction or an exponent follows the integer part. */
  predicate FractionFollows(s: JsString) {
    || (|s| >= 2 && s[0] == DOT && IsDigit(s[1]))
    || (|s| >= 2 && (s[0] == 0x65 || s[0] == 0x45) && IsDigit(s[1]))
    || (|s| >= 3 && (s[0] == 0x65 || s[0] == 0x45) && (s[1] == 0x2B || s[1] == MINUS) && IsDigit(s[2]))
  }

  function ReadNumber(s: JsString): (r: Result<Read<int>, ReadError>)
    ensures r.Ok? ==> |r.value.rest| < |s|
  {
    var negative := StartsWith(s, MINUS);
    var body := if negative then s[1..] else s;
    var n := IntegerRun(body);
    if n == 0 then Err(InvalidJson)
    else if FractionFollows(body[n..]) then Err(FractionNotModelled)
    else
      var magnitude: int := ValueOf(body[..n]);
      var value := if negative then -magnitude else magnitude;
      if Safe(value) then Ok(Read(value, body[n..])) else Err(OutOfRange)
  }

  /** The raw text up to the closing quote. */
  function ScanString(s: JsString, escaped: bool): (r: Result<Read<JsString>, ReadError>)
    ensures r.Ok? ==> |r.value.rest| < |s|
  {
    if s == [] then Err(Unterminated)
    else if !escaped && s[0] == QUOTE then Ok(Read([], s[1..]))
    else if !escaped && s[0] < 0x20 then Err(ControlCharacter)
    else
      match ScanString(s[1..], !escaped && s[0] == BACKSLASH)
      case Err(e) => Err(e)
      case Ok(tail) => Ok(Read([s[0]] + tail.value, tail.rest))
  }

  function Prepend(c: CodeUnit, s: Option<JsString>): Option<JsString> {
    if s.None? then None else Some([c] + s.value)
  }

  function Unescape(raw: JsString): Option<JsString> {
    if raw == [] then Some([])
    else if raw[0] != BACKSLASH then Prepend(raw[0], Unescape(raw[1..]))
    else if |raw| >= 2 && Unescaped(raw[1]).Some? then Prepend(Unescaped(raw[1]).value, Unescape(raw[2..]))
    else if |raw| >= 6 && raw[1] == LOWER_U
            && HexValue(raw[2]).Some? && HexValue(raw[3]).Some? && HexValue(raw[4]).Some? && HexValue(raw[5]).Some? then
      Prepend(HexUnit(HexValue(raw[2]).value, HexValue(raw[3]).value, HexValue(raw[4]).value, HexValue(raw[5]).value),
              Unescape(raw[6..]))
    else None
  }

  /** A string whose opening quote has been consumed. */
  function ReadString(s: JsString): (r: Result<Read<JsString>, ReadError>)
    ensures r.Ok? ==> |r.value.rest| < |s| && WellFormed(r.value.value)
  {
    match ScanString(s, false)
    case Err(e) => Err(e)
    case Ok(raw) =>
      match Unescape(raw.value)
      case None => Err(InvalidEscape)
      case Some(text) => if WellFormed(text) then Ok(Read(text, raw.rest)) else Err(LoneSurrogate)
  }

  predicate HasKey(members: seq<Member>, key: JsString) {
    exists i :: 0 <= i < |members| && members[i].key == key
  }

  function ReadValue(s: JsString, depth: nat, limit: nat): (r: Result<Read<Json>, ReadError>)
    ensures r.Ok? ==> |r.value.rest| < |s|
    decreases |s|, 1
  {
    if depth > limit then Err(NestingLimit) else
    var t := SkipSpace(s);
    if StartsWith(t, OPEN_OBJECT) then ReadObject(t[1..], depth + 1, limit)
    else if StartsWith(t, OPEN_ARRAY) then ReadArray(t[1..], depth + 1, limit)
    else if StartsWith(t, QUOTE) then
      match ReadString(t[1..])
      case Err(e) => Err(e)
      case Ok(text) => Ok(Read(Str(text.value), text.rest))
    else if TRUE <= t then Ok(Read(Bool(true), t[4..]))
    else if FALSE <= t then Ok(Read(Bool(false), t[5..]))
    else if NULL <= t then Ok(Read(Null, t[4..]))
    else
      match ReadNumber(t)
      case Err(e) => Err(e)
      case Ok(number) => Ok(Read(Num(number.value), number.rest))
  }

  /** What follows the opening brace. */
  function ReadObject(s: JsString, depth: nat, limit: nat): (r: Result<Read<Json>, ReadError>)
    ensures r.Ok? ==> |r.value.rest| < |s|
    decreases |s|, 4
  {
    var t := SkipSpace(s);
    if StartsWith(t, CLOSE_OBJECT) then Ok(Read(Obj([]), t[1..])) else ReadMembers(t, depth, limit, [])
  }

  /** One key, a colon and a value. */
  function ReadMember(s: JsString, depth: nat, limit: nat, before: seq<Member>): (r: Result<Read<Member>, ReadError>)
    ensures r.Ok? ==> |r.value.rest| < |s|
    decreases |s|, 2
  {
    var t := SkipSpace(s);
    if !StartsWith(t, QUOTE) then Err(KeyNotString) else
    match ReadString(t[1..])
    case Err(e) => Err(e)
    case Ok(key) =>
      if HasKey(before, key.value) then Err(DuplicateMember(key.value)) else
      var u := SkipSpace(key.rest);
      if !StartsWith(u, COLON) then Err(ExpectedColon) else
      match ReadValue(u[1..], depth, limit)
      case Err(e) => Err(e)
      case Ok(value) => Ok(Read(Member(key.value, value.value), value.rest))
  }

  function ReadMembers(s: JsString, depth: nat, limit: nat, before: seq<Member>): (r: Result<Read<Json>, ReadError>)
    ensures r.Ok? ==> |r.value.rest| < |s|
    decreases |s|, 3
  {
    match ReadMember(s, depth, limit, before)
    case Err(e) => Err(e)
    case Ok(member) =>
      var members := before + [member.value];
      var w := SkipSpace(member.rest);
      if StartsWith(w, CLOSE_OBJECT) then Ok(Read(Obj(members), w[1..]))
      else if StartsWith(w, COMMA) then ReadMembers(w[1..], depth, limit, members)
      else Err(ExpectedCommaOrObjectEnd)
  }

  /** What follows the opening bracket. */
  function ReadArray(s: JsString, depth: nat, limit: nat): (r: Result<Read<Json>, ReadError>)
    ensures r.Ok? ==> |r.value.rest| < |s|
    decreases |s|, 3
  {
    var t := SkipSpace(s);
    if StartsWith(t, CLOSE_ARRAY) then Ok(Read(Arr([]), t[1..])) else ReadItems(t, depth, limit, [])
  }

  function ReadItems(s: JsString, depth: nat, limit: nat, before: seq<Json>): (r: Result<Read<Json>, ReadError>)
    ensures r.Ok? ==> |r.value.rest| < |s|
    decreases |s|, 2
  {
    match ReadValue(s, depth, limit)
    case Err(e) => Err(e)
    case Ok(value) =>
      var items := before + [value.value];
      var w := SkipSpace(value.rest);
      if StartsWith(w, CLOSE_ARRAY) then Ok(Read(Arr(items), w[1..]))
      else if StartsWith(w, COMMA) then ReadItems(w[1..], depth, limit, items)
      else Err(ExpectedCommaOrArrayEnd)
  }

  function ReadText(s: JsString, limit: nat): Result<Json, ReadError> {
    match ReadValue(s, 0, limit)
    case Err(e) => Err(e)
    case Ok(value) => if SkipSpace(value.rest) == [] then Ok(value.value) else Err(TrailingContent)
  }
}
