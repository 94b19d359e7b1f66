/** Task identifiers as directory names: safe names unchanged, any other name as `_` and the
    hex of its UTF-8 bytes. */
module CheckpointDirectoryName {
  import opened Options
  import opened JsStrings
  import opened Decimal
  import opened Utf

  datatype NameError = EmptyName | TooLong | NotADirectoryName

  const UNDERSCORE: CodeUnit := 0x5F
  const MAX_LENGTH: nat := 255

  predicate AlphaNumeric(c: CodeUnit) { 0x30 <= c <= 0x39 || 0x41 <= c <= 0x5A || 0x61 <= c <= 0x7A }

  predicate IdUnit(c: CodeUnit) { AlphaNumeric(c) || c == 0x20 || c == 0x2E || c == 0x5F || c == 0x2D }

  /** One alphanumeric, then up to 63 of letters, digits, space, dot, underscore, hyphen. */
  predicate IsPlainId(s: JsString) {
    1 <= |s| <= 64 && AlphaNumeric(s[0]) && forall i :: 0 <= i < |s| ==> IdUnit(s[i])
  }

  predicate IsLowerHex(c: CodeUnit) { 0x30 <= c <= 0x39 || 0x61 <= c <= 0x66 }

  function LowerHexValue(c: CodeUnit): (n: int)
    requires IsLowerHex(c)
    ensures 0 <= n < 16
  {
    if c <= 0x39 then c - 0x30 else c - 0x61 + 10
  }

  predicate IsHex(s: JsString) { forall i :: 0 <= i < |s| ==> IsLowerHex(s[i]) }

  function ToHex(b: seq<Byte>): (s: JsString)
    ensures |s| == 2 * |b| && IsHex(s)
  {
    if b == [] then [] else [LowerHex(b[0] / 16), LowerHex(b[0] % 16)] + ToHex(b[1..])
  }

  function FromHex(s: JsString): (b: seq<Byte>)
    requires IsHex(s) && |s| % 2 == 0
    ensures |b| == |s| / 2
  {
    if s == [] then [] else [LowerHexValue(s[0]) * 16 + LowerHexValue(s[1])] + FromHex(s[2..])
  }

  lemma {:induction false} HexRoundTrip(b: seq<Byte>)
    ensures FromHex(ToHex(b)) == b
  {
    if b != [] {
      HexRoundTrip(b[1..]);
      assert ToHex(b)[2..] == ToHex(b[1..]);
      assert b == [b[0]] + b[1..];
    }
  }

  function Encode(name: JsString): Result<JsString, NameError> {
    if name == [] then Err(EmptyName)
    else if IsPlainId(name) then Ok(name)
    else
      var encoded := [UNDERSCORE] + ToHex(Utf8(name));
      if |encoded| > MAX_LENGTH then Err(TooLong) else Ok(encoded)
  }

  function Decode(encoded: JsString): Result<JsString, NameError> {
    if !([UNDERSCORE] <= encoded) then
      if IsPlainId(encoded) then Ok(encoded) else Err(NotADirectoryName)
    else if |encoded| < 2 || !IsHex(encoded[1..]) || |encoded| % 2 == 0 then Err(NotADirectoryName)
    else
      var decoded := FromUtf8(FromHex(encoded[1..]));
      match Encode(decoded)
      case Err(e) => Err(e)
      case Ok(again) => if again == encoded then Ok(decoded) else Err(NotADirectoryName)
  }

  lemma PlainIdIsAscii(s: JsString)
    requires IsPlainId(s)
    ensures Ascii(s) && Utf8(s) == s && s[0] != UNDERSCORE
  {
    AsciiUtf8(s);
  }

  /** The encoder's output decodes, to a name that encodes to the same directory. */
  lemma EncodedDecodes(name: JsString, encoded: JsString)
    requires Encode(name) == Ok(encoded)
    ensures Decode(encoded).Ok? && Encode(Decode(encoded).value) == Ok(encoded)
    ensures WellFormed(name) ==> Decode(encoded) == Ok(name)
  {
    hide ToHex, FromHex, Utf8, FromUtf8, ValidUtf8, WellFormed;
    if IsPlainId(name) {
      PlainIdIsAscii(name);
    } else {
      var bytes := Utf8(name);
      assert encoded[1..] == ToHex(bytes);
      HexRoundTrip(bytes);
      Utf8Reads(name);
      Utf8Writes(bytes);
      OnlyPlainIdsReadAsPlainIds(name);
    }
  }

  lemma OnlyPlainIdsReadAsPlainIds(name: JsString)
    requires name != [] && !IsPlainId(name)
    ensures !IsPlainId(FromUtf8(Utf8(name))) && Utf8(name) != []
  {
    var back := FromUtf8(Utf8(name));
    if IsPlainId(back) {
      PlainIdIsAscii(back);
      Utf8Reads(name);
      Utf8Writes(Utf8(name));
      AsciiBytesOnly(name);
    }
  }

  /** Decoding undoes encoding for exactly the well-formed names: a lone surrogate is lost. */
  lemma DecodeUndoesEncode(name: JsString, encoded: JsString)
    requires Encode(name) == Ok(encoded)
    ensures Decode(encoded) == Ok(name) <==> WellFormed(name)
  {
    hide Encode, Decode, Scrubbed, WellFormed;
    DecodesScrubbed(name);
    ScrubbedIff(name);
  }

  /** The decoder accepts exactly the encoder's image. */
  lemma DecoderAcceptsImage(encoded: JsString)
    ensures Decode(encoded).Ok? <==> exists name :: Encode(name) == Ok(encoded)
    ensures Decode(encoded).Ok? ==> Encode(Decode(encoded).value) == Ok(encoded)
  {
    if exists name :: Encode(name) == Ok(encoded) {
      var name :| Encode(name) == Ok(encoded);
      EncodedDecodes(name, encoded);
    }
    if Decode(encoded).Ok? && !([UNDERSCORE] <= encoded) {
      assert Encode(encoded) == Ok(encoded);
    }
  }

  /** Two well-formed names never share a directory. */
  lemma EncodeInjective(a: JsString, b: JsString)
    requires WellFormed(a) && WellFormed(b) && Encode(a).Ok? && Encode(a) == Encode(b)
    ensures a == b
  {
    EncodedDecodes(a, Encode(a).value);
    EncodedDecodes(b, Encode(b).value);
  }

  /** In general two names share a directory exactly when they are the same once every lone
      surrogate is replaced, and that is what the directory's name decodes to. */
  lemma SharedDirectories(a: JsString, b: JsString)
    requires Encode(a).Ok?
    ensures Encode(a) == Encode(b) <==> Scrubbed(a) == Scrubbed(b)
    ensures Decode(Encode(a).value) == Ok(Scrubbed(a))
  {
    hide Utf8, FromUtf8, ToHex, FromHex, IsPlainId, Scrubbed, WellFormed;
    DecodesScrubbed(a);
    if Encode(a) == Encode(b) { DecodesScrubbed(b); }
    if Scrubbed(a) == Scrubbed(b) {
      SameBytes(a, b);
      if IsPlainId(a) { SamePlainId(a, b); }
      if IsPlainId(b) { SamePlainId(b, a); }
      if b == [] || a == [] { NothingScrubbed(a); NothingScrubbed(b); }
    }
  }

  lemma NothingScrubbed(s: JsString)
    ensures Scrubbed(s) == [] <==> s == []
  {
  }

  lemma DecodesScrubbed(name: JsString)
    requires Encode(name).Ok?
    ensures Decode(Encode(name).value) == Ok(Scrubbed(name))
  {
    hide ToHex, FromHex, Utf8, FromUtf8, ValidUtf8, WellFormed, Scrubbed;
    EncodedDecodes(name, Encode(name).value);
    Utf8Reads(name);
    if IsPlainId(name) {
      PlainIdIsAscii(name);
      AsciiUtf8(name);
    } else {
      assert Encode(name).value[1..] == ToHex(Utf8(name));
      HexRoundTrip(Utf8(name));
    }
  }

  lemma SameBytes(a: JsString, b: JsString)
    requires Scrubbed(a) == Scrubbed(b)
    ensures Utf8(a) == Utf8(b)
  {
    hide Utf8, FromUtf8, ValidUtf8, Scrubbed, WellFormed;
    Utf8Reads(a);
    Utf8Reads(b);
    Utf8Writes(Utf8(a));
    Utf8Writes(Utf8(b));
  }

  lemma SamePlainId(a: JsString, b: JsString)
    requires IsPlainId(a) && Utf8(a) == Utf8(b)
    ensures a == b
  {
    PlainIdIsAscii(a);
    AsciiBytesOnly(b);
  }

  /** A lone surrogate and U+FFFD do. */
  lemma IllFormedNamesCollide()
    ensures Encode([0xD800]) == Encode([0xFFFD]) && Encode([0xD800]).Ok?
  {
    assert FirstScalar([0xD800]) == FirstScalar([0xFFFD]) == 0xFFFD;
    assert Utf8([0xD800]) == Utf8([0xFFFD]) == EncodeScalar(0xFFFD);
  }
}
