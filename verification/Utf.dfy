/** UTF-16 well-formedness and UTF-8 (section 3 of RFC 3629), as the program's runtime
    converts between them: a lone surrogate is written as U+FFFD, and a byte that starts no
    well-formed sequence is read as U+FFFD. */
module Utf {
  import opened Options
  import opened JsStrings

  type Byte = b: int | 0 <= b < 0x100

  type Scalar = c: int | 0 <= c < 0x11_0000 && !(0xD800 <= c < 0xE000)

  predicate High(c: CodeUnit) { 0xD800 <= c < 0xDC00 }

  predicate Low(c: CodeUnit) { 0xDC00 <= c < 0xE000 }

  predicate PairAt(s: JsString) { |s| >= 2 && High(s[0]) && Low(s[1]) }

  predicate LoneAt(s: JsString) { |s| >= 1 && !PairAt(s) && (High(s[0]) || Low(s[0])) }

  /** Every surrogate belongs to a high-low pair. */
  predicate WellFormed(s: JsString) {
    s == [] || (!LoneAt(s) && WellFormed(s[if PairAt(s) then 2 else 1..]))
  }

  method HasLoneSurrogate(value: JsString) returns (lone: bool)
    ensures lone <==> !WellFormed(value)
  {
    var i := 0;
    while i < |value|
      invariant 0 <= i <= |value|
      invariant WellFormed(value) <==> WellFormed(value[i..])
      decreases |value| - i
    {
      ghost var rest := value[i..];
      var code := value[i];
      if High(code) {
        i := i + 1;
        if i >= |value| || value[i] < 0xDC00 || value[i] > 0xDFFF {
          assert LoneAt(rest);
          return true;
        }
        assert PairAt(rest) && rest[2..] == value[i + 1..];
      } else if Low(code) {
        assert LoneAt(rest);
        return true;
      } else {
        assert rest[1..] == value[i + 1..];
      }
      i := i + 1;
    }
    return false;
  }

  // ----- scalars as UTF-16 and as UTF-8

  function Units(c: Scalar): (s: JsString)
    ensures 1 <= |s| <= 2
  {
    if c < 0x1_0000 then [c] else [0xD800 + (c - 0x1_0000) / 0x400, 0xDC00 + (c - 0x1_0000) % 0x400]
  }

  /** The scalar a string starts with; a lone surrogate counts as U+FFFD. */
  function FirstScalar(s: JsString): Scalar
    requires s != []
  {
    if PairAt(s) then 0x1_0000 + (s[0] as int - 0xD800) * 0x400 + (s[1] as int - 0xDC00)
    else if LoneAt(s) then 0xFFFD
    else s[0]
  }

  function EncodeScalar(c: Scalar): (b: seq<Byte>)
    ensures 1 <= |b| <= 4
  {
    if c < 0x80 then [c]
    else if c < 0x800 then [0xC0 + c / 0x40, 0x80 + c % 0x40]
    else if c < 0x1_0000 then [0xE0 + c / 0x1000, 0x80 + c / 0x40 % 0x40, 0x80 + c % 0x40]
    else [0xF0 + c / 0x4_0000, 0x80 + c / 0x1000 % 0x40, 0x80 + c / 0x40 % 0x40, 0x80 + c % 0x40]
  }

  predicate Tail(b: Byte) { 0x80 <= b < 0xC0 }

  /** The well-formed sequence `b` starts with, if any. */
  function DecodeScalar(b: seq<Byte>): (r: Option<Scalar>)
    ensures r.Some? ==> |EncodeScalar(r.value)| <= |b|
  {
    if b == [] then None
    else if b[0] < 0x80 then Some(b[0])
    else if 0xC2 <= b[0] < 0xE0 && |b| >= 2 && Tail(b[1]) then
      Some((b[0] as int - 0xC0) * 0x40 + (b[1] as int - 0x80))
    else if 0xE0 <= b[0] < 0xF0 && |b| >= 3 && Tail(b[1]) && Tail(b[2]) then
      var c := (b[0] as int - 0xE0) * 0x1000 + (b[1] as int - 0x80) * 0x40 + (b[2] as int - 0x80);
      if c < 0x800 || 0xD800 <= c < 0xE000 then None else Some(c)
    else if 0xF0 <= b[0] < 0xF5 && |b| >= 4 && Tail(b[1]) && Tail(b[2]) && Tail(b[3]) then
      var c := (b[0] as int - 0xF0) * 0x4_0000 + (b[1] as int - 0x80) * 0x1000 + (b[2] as int - 0x80) * 0x40 + (b[3] as int - 0x80);
      if c < 0x1_0000 || c >= 0x11_0000 then None else Some(c)
    else None
  }

  /** Six bits at a time. */
  lemma SixBits(high: nat, low: nat)
    requires low < 0x40
    ensures (high * 0x40 + low) / 0x40 == high && (high * 0x40 + low) % 0x40 == low
  {
  }

  lemma SplitBits(c: nat)
    ensures c == c / 0x40 * 0x40 + c % 0x40 && c / 0x40 == c / 0x1000 * 0x40 + c / 0x40 % 0x40
    ensures c / 0x1000 == c / 0x4_0000 * 0x40 + c / 0x1000 % 0x40
  {
  }

  lemma ThreeBytesRoundTrip(c: Scalar, b: seq<Byte>)
    requires 0x800 <= c < 0x1_0000 && |b| >= 3
    requires b[0] == 0xE0 + c / 0x1000 && b[1] == 0x80 + c / 0x40 % 0x40 && b[2] == 0x80 + c % 0x40
    ensures DecodeScalar(b) == Some(c)
  {
    SplitBits(c);
  }

  lemma FourBytesRoundTrip(c: Scalar, b: seq<Byte>)
    requires 0x1_0000 <= c && |b| >= 4
    requires b[0] == 0xF0 + c / 0x4_0000 && b[1] == 0x80 + c / 0x1000 % 0x40
    requires b[2] == 0x80 + c / 0x40 % 0x40 && b[3] == 0x80 + c % 0x40
    ensures DecodeScalar(b) == Some(c)
  {
    SplitBits(c);
  }

  lemma ScalarRoundTrip(c: Scalar, rest: seq<Byte>)
    ensures DecodeScalar(EncodeScalar(c) + rest) == Some(c)
  {
    var e := EncodeScalar(c);
    var b := e + rest;
    assert forall i :: 0 <= i < |e| ==> b[i] == e[i];
    if 0x800 <= c < 0x1_0000 {
      ThreeBytesRoundTrip(c, b);
    } else if c >= 0x1_0000 {
      FourBytesRoundTrip(c, b);
    } else if c >= 0x80 {
      SplitBits(c);
    }
  }

  lemma ThreeBytesShortest(b: seq<Byte>)
    requires b != [] && 0xE0 <= b[0] < 0xF0 && DecodeScalar(b).Some?
    ensures EncodeScalar(DecodeScalar(b).value) == b[..3]
  {
    var h, m, l := b[0] as int - 0xE0, b[1] as int - 0x80, b[2] as int - 0x80;
    SixBits(h * 0x40 + m, l);
    SixBits(h, m);
    SplitBits(DecodeScalar(b).value);
  }

  lemma FourBytesShortest(b: seq<Byte>)
    requires b != [] && 0xF0 <= b[0] && DecodeScalar(b).Some?
    ensures EncodeScalar(DecodeScalar(b).value) == b[..4]
  {
    var h, m, n, l := b[0] as int - 0xF0, b[1] as int - 0x80, b[2] as int - 0x80, b[3] as int - 0x80;
    SixBits((h * 0x40 + m) * 0x40 + n, l);
    SixBits(h * 0x40 + m, n);
    SixBits(h, m);
    SplitBits(DecodeScalar(b).value);
  }

  lemma ScalarIsShortest(b: seq<Byte>)
    requires DecodeScalar(b).Some?
    ensures EncodeScalar(DecodeScalar(b).value) <= b
  {
    if 0xE0 <= b[0] < 0xF0 {
      ThreeBytesShortest(b);
    } else if 0xF0 <= b[0] {
      FourBytesShortest(b);
    }
  }

  // ----- whole strings

  function Utf8(s: JsString): seq<Byte> {
    if s == [] then [] else EncodeScalar(FirstScalar(s)) + Utf8(s[if PairAt(s) then 2 else 1..])
  }

  function FromUtf8(b: seq<Byte>): JsString {
    if b == [] then []
    else match DecodeScalar(b)
      case None => [0xFFFD] + FromUtf8(b[1..])
      case Some(c) => Units(c) + FromUtf8(b[|EncodeScalar(c)|..])
  }

  predicate ValidUtf8(b: seq<Byte>) {
    b == [] || (DecodeScalar(b).Some? && ValidUtf8(b[|EncodeScalar(DecodeScalar(b).value)|..]))
  }

  /** The string with each lone surrogate replaced by U+FFFD. */
  function Scrubbed(s: JsString): (r: JsString)
    ensures |r| == |s|
  {
    if s == [] then [] else Units(FirstScalar(s)) + Scrubbed(s[if PairAt(s) then 2 else 1..])
  }

  lemma {:induction false} ScrubbedIff(s: JsString)
    ensures WellFormed(s) <==> Scrubbed(s) == s
  {
    hide FirstScalar, Units;
    if s != [] {
      var n := if PairAt(s) then 2 else 1;
      ScrubbedIff(s[n..]);
      UnitsOfFirst(s);
      assert s == s[..n] + s[n..] && |Units(FirstScalar(s))| == n;
      assert Scrubbed(s)[..n] == Units(FirstScalar(s)) && Scrubbed(s)[n..] == Scrubbed(s[n..]);
    }
  }

  /** What Utf8 writes is valid, and reads back as the same string with each lone surrogate
      replaced. */
  lemma {:induction false} Utf8Reads(s: JsString)
    ensures ValidUtf8(Utf8(s)) && FromUtf8(Utf8(s)) == Scrubbed(s)
    ensures WellFormed(s) <==> FromUtf8(Utf8(s)) == s
  {
    hide EncodeScalar, DecodeScalar, Units, FirstScalar, WellFormed;
    ScrubbedIff(s);
    if s != [] {
      var c := FirstScalar(s);
      var rest := s[if PairAt(s) then 2 else 1..];
      ScalarRoundTrip(c, Utf8(rest));
      assert Utf8(s)[|EncodeScalar(c)|..] == Utf8(rest);
      Utf8Reads(rest);
    }
  }

  lemma UnitsOfFirst(s: JsString)
    requires s != []
    ensures PairAt(s) ==> Units(FirstScalar(s)) == s[..2]
    ensures !PairAt(s) && !LoneAt(s) ==> Units(FirstScalar(s)) == s[..1]
    ensures LoneAt(s) ==> |Units(FirstScalar(s))| == 1 && Units(FirstScalar(s)) != s[..1]
  {
  }

  lemma UnitsComeFirst(c: Scalar, t: JsString)
    ensures var s := Units(c) + t;
            && s != [] && FirstScalar(s) == c && !LoneAt(s) && (PairAt(s) <==> c >= 0x1_0000)
            && s[if PairAt(s) then 2 else 1..] == t
  {
    var s := Units(c) + t;
    assert forall i :: 0 <= i < |Units(c)| ==> s[i] == Units(c)[i];
    if c >= 0x1_0000 {
      var d := c - 0x1_0000;
      assert d == d / 0x400 * 0x400 + d % 0x400;
      assert s[2..] == t;
    } else {
      assert s[1..] == t;
    }
  }

  /** Reading always gives a well-formed string; on valid bytes writing undoes it. */
  lemma {:induction false} Utf8Writes(b: seq<Byte>)
    ensures WellFormed(FromUtf8(b))
    ensures ValidUtf8(b) ==> Utf8(FromUtf8(b)) == b
    ensures b != [] ==> FromUtf8(b) != []
  {
    hide EncodeScalar, DecodeScalar, Units, FirstScalar;
    if b != [] {
      match DecodeScalar(b)
      case None =>
        Utf8Writes(b[1..]);
        UnitsComeFirst(0xFFFD, FromUtf8(b[1..]));
        ReplacementUnits();
      case Some(c) =>
        ScalarIsShortest(b);
        var rest := b[|EncodeScalar(c)|..];
        Utf8Writes(rest);
        UnitsComeFirst(c, FromUtf8(rest));
        assert b == EncodeScalar(c) + rest;
    }
  }

  lemma ReplacementUnits()
    ensures Units(0xFFFD) == [0xFFFD]
  {
  }

  predicate Ascii(s: JsString) { forall i :: 0 <= i < |s| ==> s[i] < 0x80 }

  lemma {:induction false} AsciiUtf8(s: JsString)
    requires Ascii(s)
    ensures Utf8(s) == s && WellFormed(s)
  {
    if s != [] {
      AsciiUtf8(s[1..]);
      assert s == [s[0]] + s[1..];
    }
  }

  /** Only ASCII text is written as ASCII bytes. */
  lemma {:induction false} AsciiBytesOnly(s: JsString)
    requires forall i :: 0 <= i < |Utf8(s)| ==> Utf8(s)[i] < 0x80
    ensures Ascii(s) && Utf8(s) == s
  {
    if s != [] {
      var head := EncodeScalar(FirstScalar(s));
      var rest := s[if PairAt(s) then 2 else 1..];
      assert Utf8(s)[0] == head[0] < 0x80;
      assert !PairAt(s) && !LoneAt(s);
      assert forall i :: 0 <= i < |Utf8(rest)| ==> Utf8(rest)[i] == Utf8(s)[i + 1];
      AsciiBytesOnly(rest);
      assert s == [s[0]] + rest;
    }
  }
}
