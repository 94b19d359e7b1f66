/** Canonical text as UTF-8 bytes. Printed text is well-formed, so encoding it loses nothing. */
module JsonBytes {
  import opened Options
  import opened JsStrings
  import opened Decimal
  import opened Utf
  import opened Json
  import opened JsonRoundTrip
  import opened JsonCanonical

  lemma {:induction false} WellFormedConcat(a: JsString, b: JsString)
    requires WellFormed(a) && WellFormed(b)
    ensures WellFormed(a + b)
    decreases |a|
  {
    if a == [] {
      assert a + b == b;
    } else {
      var k := if PairAt(a) then 2 else 1;
      assert PairAt(a + b) == PairAt(a);
      assert (a + b)[k..] == a[k..] + b;
      WellFormedConcat(a[k..], b);
    }
  }

  lemma AsciiIsWellFormed(s: JsString)
    requires Ascii(s)
    ensures WellFormed(s)
  {
    AsciiUtf8(s);
  }

  lemma EscapeIsWellFormed(c: CodeUnit)
    requires !High(c) && !Low(c)
    ensures WellFormed(Escape(c))
  {
    if c < 0x80 {
      assert Ascii(Escape(c));
      AsciiIsWellFormed(Escape(c));
    } else {
      assert [c][1..] == [];
    }
  }

  lemma {:induction false} EscapeAllIsWellFormed(s: JsString)
    requires WellFormed(s)
    ensures WellFormed(EscapeAll(s))
    decreases |s|
  {
    hide Escape;
    if s != [] {
      if PairAt(s) {
        var tail := EscapeAll(s[2..]);
        SurrogatesStay(s[0]);
        SurrogatesStay(s[1]);
        assert s[1..][0] == s[1] && s[1..][1..] == s[2..];
        EscapeAllIsWellFormed(s[2..]);
        var e := [s[0], s[1]] + tail;
        assert EscapeAll(s) == e;
        assert PairAt(e) && e[2..] == tail;
      } else {
        EscapeIsWellFormed(s[0]);
        EscapeAllIsWellFormed(s[1..]);
        WellFormedConcat(Escape(s[0]), EscapeAll(s[1..]));
      }
    }
  }

  lemma SurrogatesStay(c: CodeUnit)
    requires High(c) || Low(c)
    ensures Escape(c) == [c]
  {
  }

  /** ASCII around well-formed text. */
  lemma Enclosed(open: CodeUnit, s: JsString, close: CodeUnit)
    requires open < 0x80 && close < 0x80 && WellFormed(s)
    ensures WellFormed([open] + s + [close])
  {
    AsciiIsWellFormed([open]);
    AsciiIsWellFormed([close]);
    WellFormedConcat([open], s);
    WellFormedConcat([open] + s, [close]);
  }

  lemma Joined(a: JsString, c: CodeUnit, b: JsString)
    requires c < 0x80 && WellFormed(a) && WellFormed(b)
    ensures WellFormed(a + [c] + b)
  {
    AsciiIsWellFormed([c]);
    WellFormedConcat(a, [c]);
    WellFormedConcat(a + [c], b);
  }

  lemma DigitsAreAscii(s: JsString)
    requires AllDigits(s)
    ensures Ascii(s)
  {
  }

  lemma ScalarIsWellFormed(v: Json)
    requires Printable(v) && !v.Arr? && !v.Obj?
    ensures WellFormed(Print(v))
  {
    match v {
      case Num(n) =>
        DigitsAreAscii(Digits(if n < 0 then -n else n));
        AsciiIsWellFormed(PrintNumber(n));
      case Str(s) =>
        EscapeAllIsWellFormed(s);
        Enclosed(QUOTE, EscapeAll(s), QUOTE);
      case _ => AsciiIsWellFormed(Print(v));
    }
  }

  /** What is printed has no lone surrogate. */
  lemma {:induction false} PrintIsWellFormed(v: Json)
    requires Printable(v)
    ensures WellFormed(Print(v))
    decreases v
  {
    hide Printable, PrintItems, PrintMembers, WellFormed;
    PrintableParts(v);
    if v.Arr? {
      forall i | 0 <= i < |v.items| { PrintIsWellFormed(v.items[i]); }
      ItemsAreWellFormed(v.items);
      Enclosed(OPEN_ARRAY, PrintItems(v.items), CLOSE_ARRAY);
    } else if v.Obj? {
      forall i | 0 <= i < |v.members| { PrintIsWellFormed(v.members[i].value); }
      MembersAreWellFormed(v.members);
      Enclosed(OPEN_OBJECT, PrintMembers(v.members), CLOSE_OBJECT);
    } else {
      ScalarIsWellFormed(v);
    }
  }

  lemma {:induction false} ItemsAreWellFormed(items: seq<Json>)
    requires forall i :: 0 <= i < |items| ==> WellFormed(Print(items[i]))
    ensures WellFormed(PrintItems(items))
  {
    hide Print;
    if |items| > 1 {
      ItemsAreWellFormed(items[1..]);
      Joined(Print(items[0]), COMMA, PrintItems(items[1..]));
    }
  }

  lemma MemberIsWellFormed(m: Member)
    requires WellFormed(m.key) && WellFormed(Print(m.value))
    ensures WellFormed(PrintMember(m))
  {
    hide Print;
    EscapeAllIsWellFormed(m.key);
    Enclosed(QUOTE, EscapeAll(m.key), QUOTE);
    Joined(PrintString(m.key), COLON, Print(m.value));
  }

  lemma {:induction false} MembersAreWellFormed(members: seq<Member>)
    requires forall i :: 0 <= i < |members| ==> WellFormed(members[i].key) && WellFormed(Print(members[i].value))
    ensures WellFormed(PrintMembers(members))
  {
    hide Print, PrintMember;
    if members != [] {
      MemberIsWellFormed(members[0]);
      if |members| > 1 {
        MembersAreWellFormed(members[1..]);
        Joined(PrintMember(members[0]), COMMA, PrintMembers(members[1..]));
      }
    }
  }

  /** The bytes that are hashed: the canonical text in UTF-8. */
  function CanonicalBytes(v: Json): Result<seq<Byte>, PrintError> {
    match Canonicalize(v)
    case Err(e) => Err(e)
    case Ok(text) => Ok(Utf8(text))
  }

  /** The bytes decode to the canonical text, and the strict reader makes of it the value with
      its members sorted, exactly when it nests no deeper than the limit. */
  lemma CanonicalBytesReadBack(v: Json)
    requires Printable(v)
    ensures CanonicalBytes(v).Ok? && Ok(FromUtf8(CanonicalBytes(v).value)) == Canonicalize(v) && ValidUtf8(CanonicalBytes(v).value)
    ensures ReadText(FromUtf8(CanonicalBytes(v).value), NESTING_LIMIT)
            == if Depth(v) <= NESTING_LIMIT then Ok(Normal(v)) else Err(NestingLimit)
  {
    hide Print, Utf8, FromUtf8, ReadText, Normal, WellFormed;
    NormalIsPrintable(v);
    PrintIsWellFormed(Normal(v));
    Utf8Reads(Print(Normal(v)));
    CanonicalTextReadsBack(v);
  }

  /** Two values have the same canonical bytes if and only if they are the same value. */
  lemma CanonicalBytesIdentify(v: Json, w: Json)
    requires Printable(v) && Printable(w)
    ensures CanonicalBytes(v) == CanonicalBytes(w) <==> Same(v, w)
  {
    hide Canonicalize, Utf8, FromUtf8, Same;
    CanonicalBytesReadBack(v);
    CanonicalBytesReadBack(w);
    CanonicalTextIdentifies(v, w);
  }
}
