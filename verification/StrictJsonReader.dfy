/** The reader as it runs: one index moving over the source. Each method is the reading
    function of module Json applied to the text at the index. */
module StrictJsonReaders {
  import opened Options
  import opened JsStrings
  import opened Utf
  import opened Json

  /** A run from `before` that met the specified outcome and stopped at `after`. */
  ghost predicate Meets<T>(r: Result<T, ReadError>, spec: Result<Read<T>, ReadError>, after: JsString) {
    match r
    case Ok(v) => spec == Ok(Read(v, after))
    case Err(e) => spec == Err(e)
  }

  function Prefixed(p: JsString, r: Result<Read<JsString>, ReadError>): Result<Read<JsString>, ReadError> {
    match r
    case Err(e) => Err(e)
    case Ok(t) => Ok(Read(p + t.value, t.rest))
  }

  lemma NothingPrefixed(r: Result<Read<JsString>, ReadError>)
    ensures Prefixed([], r) == r
  {
    if r.Ok? { assert [] + r.value.value == r.value.value; }
  }

  lemma PrefixedGrows(p: JsString, s: JsString, escaped: bool)
    requires s != [] && (escaped || (s[0] != QUOTE && s[0] >= 0x20))
    ensures Prefixed(p, ScanString(s, escaped))
            == Prefixed(p + [s[0]], ScanString(s[1..], !escaped && s[0] == BACKSLASH))
  {
    var tail := ScanString(s[1..], !escaped && s[0] == BACKSLASH);
    if tail.Ok? {
      assert p + ([s[0]] + tail.value.value) == p + [s[0]] + tail.value.value;
    }
  }

  /** What comes after one element of an array, or one member of an object. */
  lemma ItemsGoOn(s: JsString, depth: nat, limit: nat, before: seq<Json>)
    ensures var first := ReadValue(s, depth, limit);
            ReadItems(s, depth, limit, before) ==
            if first.Err? then Err(first.error)
            else
              var items, w := before + [first.value.value], SkipSpace(first.value.rest);
              if w == [] then Err(ExpectedCommaOrArrayEnd)
              else if w[0] == CLOSE_ARRAY then Ok(Read(Arr(items), w[1..]))
              else if w[0] == COMMA then ReadItems(w[1..], depth, limit, items)
              else Err(ExpectedCommaOrArrayEnd)
  {
    hide ReadValue, SkipSpace;
  }

  lemma MembersGoOn(s: JsString, depth: nat, limit: nat, before: seq<Member>)
    ensures var first := ReadMember(s, depth, limit, before);
            ReadMembers(s, depth, limit, before) ==
            if first.Err? then Err(first.error)
            else
              var members, w := before + [first.value.value], SkipSpace(first.value.rest);
              if w == [] then Err(ExpectedCommaOrObjectEnd)
              else if w[0] == CLOSE_OBJECT then Ok(Read(Obj(members), w[1..]))
              else if w[0] == COMMA then ReadMembers(w[1..], depth, limit, members)
              else Err(ExpectedCommaOrObjectEnd)
  {
    hide ReadMember, SkipSpace;
  }

  /** Where a scan ends. */
  lemma ScanEnds(s: JsString, escaped: bool)
    ensures s == [] ==> ScanString(s, escaped) == Err(Unterminated)
    ensures s != [] && !escaped && s[0] == QUOTE ==> ScanString(s, escaped) == Ok(Read([], s[1..]))
    ensures s != [] && !escaped && s[0] != QUOTE && s[0] < 0x20 ==> ScanString(s, escaped) == Err(ControlCharacter)
  {
  }

  /** What the scanned characters stand for. */
  method Unquote(raw: JsString) returns (r: Result<JsString, ReadError>)
    ensures match Unescape(raw)
            case None => r == Err(InvalidEscape)
            case Some(text) => r == if WellFormed(text) then Ok(text) else Err(LoneSurrogate)
  {
    hide Unescape, WellFormed;
    var text := Unescape(raw);
    if text.None? {
      return Err(InvalidEscape);
    }
    var lone := HasLoneSurrogate(text.value);
    if lone {
      return Err(LoneSurrogate);
    }
    return Ok(text.value);
  }

  class StrictJsonReader {
    const source: JsString
    var index: nat

    constructor (source: JsString)
      ensures this.source == source && index == 0
    {
      this.source, index := source, 0;
    }

    ghost predicate InBounds()
      reads this
    {
      index <= |source|
    }

    ghost function Rest(): JsString
      reads this
      requires InBounds()
    {
      source[index..]
    }

    method ReadAll() returns (r: Result<Json, ReadError>)
      requires index == 0
      modifies this
      ensures r == ReadText(source, NESTING_LIMIT)
    {
      assert source[0..] == source;
      r := Value(0);
      if r.Ok? {
        Space();
        if index != |source| {
          return Err(TrailingContent);
        }
      }
    }

    method Space()
      requires InBounds()
      modifies this
      ensures InBounds() && index >= old(index) && Rest() == SkipSpace(old(Rest()))
    {
      while index < |source| && IsSpace(source[index])
        invariant old(index) <= index <= |source|
        invariant SkipSpace(source[index..]) == SkipSpace(old(source[index..]))
      {
        assert source[index..][1..] == source[index + 1..];
        index := index + 1;
      }
    }

    method Value(depth: nat) returns (r: Result<Json, ReadError>)
      requires InBounds()
      modifies this
      ensures InBounds() && index >= old(index)
      ensures Meets(r, ReadValue(old(Rest()), depth, NESTING_LIMIT), Rest())
      decreases |source| - index, 1
    {
      if depth > NESTING_LIMIT {
        return Err(NestingLimit);
      }
      Space();
      ghost var text := Rest();
      if index < |source| && source[index] == OPEN_OBJECT {
        assert text[1..] == source[index + 1..];
        r := ObjectValue(depth + 1);
        return;
      }
      if index < |source| && source[index] == OPEN_ARRAY {
        assert text[1..] == source[index + 1..];
        r := ArrayValue(depth + 1);
        return;
      }
      if index < |source| && source[index] == QUOTE {
        assert text[1..] == source[index + 1..];
        var s := Quoted();
        return if s.Ok? then Ok(Str(s.value)) else Err(s.error);
      }
      if TRUE <= source[index..] {
        assert text[4..] == source[index + 4..];
        index := index + 4;
        return Ok(Bool(true));
      }
      if FALSE <= source[index..] {
        assert text[5..] == source[index + 5..];
        index := index + 5;
        return Ok(Bool(false));
      }
      if NULL <= source[index..] {
        assert text[4..] == source[index + 4..];
        index := index + 4;
        return Ok(Null);
      }
      r := Number();
    }

    /** Where the integer part that starts at `start` ends. */
    method IntegerEnd(start: nat) returns (stop: nat)
      requires start <= |source|
      ensures start <= stop <= |source| && stop - start == IntegerRun(source[start..])
    {
      stop := start;
      if start < |source| && source[start] == 0x30 {
        return start + 1;
      }
      while stop < |source| && Decimal.IsDigit(source[stop])
        invariant start <= stop <= |source|
        invariant DigitRun(source[start..]) == stop - start + DigitRun(source[stop..])
      {
        assert source[stop..][1..] == source[stop + 1..];
        stop := stop + 1;
      }
    }

    /** The sticky number pattern, matched at the index. */
    method Number() returns (r: Result<Json, ReadError>)
      requires InBounds()
      modifies this
      ensures InBounds() && index >= old(index)
      ensures ReadNumber(old(Rest())).Err? ==> r == Err(ReadNumber(old(Rest())).error)
      ensures ReadNumber(old(Rest())).Ok? ==>
                r == Ok(Num(ReadNumber(old(Rest())).value.value)) && Rest() == ReadNumber(old(Rest())).value.rest
    {
      hide FractionFollows, Decimal.ValueOf, IntegerRun;
      var negative := index < |source| && source[index] == MINUS;
      var start := if negative then index + 1 else index;
      assert (if negative then source[index..][1..] else source[index..]) == source[start..];
      var stop := IntegerEnd(start);
      assert source[start..][..stop - start] == source[start..stop] && source[start..][stop - start..] == source[stop..];
      if stop == start {
        return Err(InvalidJson);
      }
      if FractionFollows(source[stop..]) {
        return Err(FractionNotModelled);
      }
      var magnitude: int := Decimal.ValueOf(source[start..stop]);
      var value := if negative then -magnitude else magnitude;
      if !Safe(value) {
        return Err(OutOfRange);
      }
      index := stop;
      return Ok(Num(value));
    }

    method Quoted() returns (r: Result<JsString, ReadError>)
      requires index < |source| && source[index] == QUOTE
      modifies this
      ensures InBounds() && index >= old(index)
      ensures Meets(r, ReadString(old(source[index + 1..])), Rest())
      ensures r.Ok? ==> index > old(index) + 1
    {
      hide Unescape, WellFormed, ScanString;
      var start := index;
      index := index + 1;
      var escaped := false;
      ghost var spec := ScanString(source[start + 1..], false);
      NothingPrefixed(spec);
      assert source[start + 1..index] == [];
      while index < |source|
        invariant start + 1 <= index <= |source|
        invariant spec == Prefixed(source[start + 1..index], ScanString(source[index..], escaped))
      {
        var c := source[index];
        assert source[index..][0] == c && source[index..][1..] == source[index + 1..];
        ScanEnds(source[index..], escaped);
        if !escaped && c == QUOTE {
          var raw := source[start + 1..index];
          assert raw + [] == raw;
          index := index + 1;
          r := Unquote(raw);
          return;
        }
        if !escaped && c < 0x20 {
          return Err(ControlCharacter);
        }
        PrefixedGrows(source[start + 1..index], source[index..], escaped);
        assert source[start + 1..index] + [c] == source[start + 1..index + 1];
        escaped := !escaped && c == BACKSLASH;
        index := index + 1;
      }
      ScanEnds(source[index..], escaped);
      return Err(Unterminated);
    }

    method ObjectValue(depth: nat) returns (r: Result<Json, ReadError>)
      requires index < |source| && source[index] == OPEN_OBJECT
      modifies this
      ensures InBounds() && index >= old(index)
      ensures Meets(r, ReadObject(old(source[index + 1..]), depth, NESTING_LIMIT), Rest())
      decreases |source| - index, 0
    {
      hide ReadValue, ReadString, ReadArray, ReadItems, ReadMember, ReadMembers, SkipSpace, HasKey;
      ghost var spec := ReadObject(source[index + 1..], depth, NESTING_LIMIT);
      index := index + 1;
      Space();
      if index < |source| && source[index] == CLOSE_OBJECT {
        assert source[index..][1..] == source[index + 1..];
        index := index + 1;
        return Ok(Obj([]));
      }
      var members: seq<Member> := [];
      while true
        invariant old(index) < index <= |source|
        invariant spec == ReadMembers(source[index..], depth, NESTING_LIMIT, members)
        decreases |source| - index
      {
        MembersGoOn(source[index..], depth, NESTING_LIMIT, members);
        var member := MemberValue(depth, members);
        if member.Err? {
          return Err(member.error);
        }
        members := members + [member.value];
        Space();
        if index >= |source| {
          return Err(ExpectedCommaOrObjectEnd);
        }
        assert source[index..][1..] == source[index + 1..];
        var separator := source[index];
        index := index + 1;
        if separator == CLOSE_OBJECT {
          return Ok(Obj(members));
        }
        if separator != COMMA {
          return Err(ExpectedCommaOrObjectEnd);
        }
      }
    }

    method MemberValue(depth: nat, members: seq<Member>) returns (r: Result<Member, ReadError>)
      requires InBounds()
      modifies this
      ensures InBounds() && index >= old(index)
      ensures Meets(r, ReadMember(old(Rest()), depth, NESTING_LIMIT, members), Rest())
      decreases |source| - index, 2
    {
      hide ReadValue, ReadString, ReadArray, ReadItems, ReadObject, ReadMembers, SkipSpace, HasKey;
      Space();
      if index >= |source| || source[index] != QUOTE {
        return Err(KeyNotString);
      }
      assert source[index..][1..] == source[index + 1..];
      var key := Quoted();
      if key.Err? {
        return Err(key.error);
      }
      if HasKey(members, key.value) {
        return Err(DuplicateMember(key.value));
      }
      Space();
      if index >= |source| || source[index] != COLON {
        return Err(ExpectedColon);
      }
      assert source[index..][1..] == source[index + 1..];
      index := index + 1;
      var value := Value(depth);
      return if value.Ok? then Ok(Member(key.value, value.value)) else Err(value.error);
    }

    method ArrayValue(depth: nat) returns (r: Result<Json, ReadError>)
      requires index < |source| && source[index] == OPEN_ARRAY
      modifies this
      ensures InBounds() && index >= old(index)
      ensures Meets(r, ReadArray(old(source[index + 1..]), depth, NESTING_LIMIT), Rest())
      decreases |source| - index, 0
    {
      hide ReadValue, ReadString, ReadObject, ReadItems, ReadMembers, SkipSpace, HasKey;
      ghost var spec := ReadArray(source[index + 1..], depth, NESTING_LIMIT);
      index := index + 1;
      Space();
      if index < |source| && source[index] == CLOSE_ARRAY {
        assert source[index..][1..] == source[index + 1..];
        index := index + 1;
        return Ok(Arr([]));
      }
      var items: seq<Json> := [];
      while true
        invariant old(index) < index <= |source|
        invariant spec == ReadItems(source[index..], depth, NESTING_LIMIT, items)
        decreases |source| - index
      {
        ItemsGoOn(source[index..], depth, NESTING_LIMIT, items);
        var value := Value(depth);
        if value.Err? {
          return Err(value.error);
        }
        items := items + [value.value];
        Space();
        if index >= |source| {
          return Err(ExpectedCommaOrArrayEnd);
        }
        assert source[index..][1..] == source[index + 1..];
        var separator := source[index];
        index := index + 1;
        if separator == CLOSE_ARRAY {
          return Ok(Arr(items));
        }
        if separator != COMMA {
          return Err(ExpectedCommaOrArrayEnd);
        }
      }
    }
  }
}
