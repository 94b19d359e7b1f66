/** The managed block in CLAUDE.md: how it is added, found again and taken out, and exactly when
    that gives the user's text back. */
module ClaudeBridges {
  import opened Options
  import opened JsStrings

  const LF: CodeUnit := 0x0A
  const CR: CodeUnit := 0x0D

  // The texts are put together from short pieces: the solver spells out every literal, and long
  // ones are slow.
  const MARKER_TAIL: JsString :=
    Js(" ai-office") + Js(" managed:") + Js(" canonical-") + Js("project-") + Js("instructions") + Js(" -->")

  const START: JsString := Js("<!-- >>>") + MARKER_TAIL
  const END: JsString := Js("<!-- <<<") + MARKER_TAIL
  const IMPORT: JsString := Js("@AI-OFFICE.md")
  const TITLE: JsString := Js("# Claude") + Js(" Code") + Js(" compatibility")
  const BLOCK: JsString := START + [LF] + IMPORT + [LF] + END
  const SUFFIX: JsString := [LF, LF] + BLOCK + [LF]
  const OWN_FILE: JsString := TITLE + SUFFIX

  predicate OneLine(s: JsString) { forall i :: 0 <= i < |s| ==> s[i] != LF && s[i] != CR }

  predicate White(c: CodeUnit) {
    || 0x09 <= c <= 0x0D || c == 0x20 || c == 0xA0 || c == 0x1680 || 0x2000 <= c <= 0x200A
    || c == 0x2028 || c == 0x2029 || c == 0x202F || c == 0x205F || c == 0x3000 || c == 0xFEFF
  }

  predicate LineEnd(c: CodeUnit) { c == LF || c == CR || c == 0x2028 || c == 0x2029 }

  predicate AllWhite(s: JsString) { forall i :: 0 <= i < |s| ==> White(s[i]) }

  function TrimEnd(s: JsString): (r: JsString)
    ensures r <= s && AllWhite(s[|r|..]) && (r != [] ==> !White(r[|r| - 1]))
  {
    if s == [] || !White(s[|s| - 1]) then s
    else
      var r := TrimEnd(s[..|s| - 1]);
      assert forall i :: |r| <= i < |s| - 1 ==> s[i] == s[..|s| - 1][|r|..][i - |r|];
      r
  }

  function TrimStart(s: JsString): (r: JsString)
    ensures |r| <= |s| && r == s[|s| - |r|..] && AllWhite(s[..|s| - |r|]) && (r != [] ==> !White(r[0]))
  {
    if s == [] || !White(s[0]) then s else TrimStart(s[1..])
  }

  function Trim(s: JsString): JsString { TrimStart(TrimEnd(s)) }

  /** Every line break as a line feed. */
  function NormalizeEol(s: JsString): (r: JsString)
    ensures |r| <= |s|
    decreases |s|
  {
    if s == [] then []
    else if s[0] == CR then [LF] + NormalizeEol(if |s| > 1 && s[1] == LF then s[2..] else s[1..])
    else [s[0]] + NormalizeEol(s[1..])
  }

  // ----- finding markers

  predicate At(s: JsString, i: nat, m: JsString) { i + |m| <= |s| && s[i..i + |m|] == m }

  /** All occurrences, left to right, none overlapping the one before. */
  function MatchAll(s: JsString, m: JsString, i: nat): seq<nat>
    requires m != []
    decreases |s| - i
  {
    if i + |m| > |s| then []
    else if At(s, i, m) then [i] + MatchAll(s, m, i + |m|)
    else MatchAll(s, m, i + 1)
  }

  lemma {:induction false} NoMatch(s: JsString, m: JsString, i: nat)
    requires m != [] && forall k :: i <= k ==> !At(s, k, m)
    ensures MatchAll(s, m, i) == []
    decreases |s| - i
  {
    if i + |m| <= |s| { NoMatch(s, m, i + 1); }
  }

  lemma {:induction false} OneMatch(s: JsString, m: JsString, i: nat, k: nat)
    requires m != [] && i <= k && At(s, k, m) && forall j :: i <= j && j != k ==> !At(s, j, m)
    ensures MatchAll(s, m, i) == [k]
    decreases k - i
  {
    if i == k { NoMatch(s, m, k + |m|); } else { OneMatch(s, m, i + 1, k); }
  }

  /** `@AI-OFFICE.md` alone on a line. */
  predicate ImportLineAt(s: JsString, i: nat) {
    && At(s, i, IMPORT) && (i == 0 || LineEnd(s[i - 1]))
    && RestIsWhite(s, i + |IMPORT|)
  }

  predicate RestIsWhite(s: JsString, k: nat) { exists e :: k <= e <= |s| && WhiteUntil(s, k, e) }

  /** Nothing but white space, and then the end of a line. */
  predicate WhiteUntil(s: JsString, k: nat, e: nat)
    requires k <= e <= |s|
  {
    (e == |s| || LineEnd(s[e])) && AllWhite(s[k..e])
  }

  predicate DirectImport(s: JsString) { exists i :: 0 <= i < |s| && ImportLineAt(s, i) }

  datatype Bridge =
    | AbsentBridge
    | ImportedDirectly
    | UnmanagedBridge
    | ConflictingBridge
    | ManagedBridge(start: nat, end: nat, owned: bool, integrated: bool)

  function Analyze(file: Option<JsString>): Bridge {
    if file.None? then AbsentBridge
    else
      var content := file.value;
      MarkersNonEmpty();
      var starts, ends := MatchAll(content, START, 0), MatchAll(content, END, 0);
      if starts == [] && ends == [] then (if DirectImport(content) then ImportedDirectly else UnmanagedBridge)
      else if |starts| != 1 || |ends| != 1 then ConflictingBridge
      else
        var start, end := starts[0], ends[0] + |END|;
        if end <= start || end > |content| then ConflictingBridge
        else
          var managed := NormalizeEol(content[start..end]);
          var whole := NormalizeEol(content);
          ManagedBridge(start, end, whole == NormalizeEol(OWN_FILE) || Trim(whole) == Trim(managed), managed == NormalizeEol(BLOCK))
  }

  lemma MarkersNonEmpty()
    ensures |START| == |END| == 62 && |IMPORT| == 13 && |TITLE| == 27
  {
  }

  /** What installing writes over a user's file, and what uninstalling takes out of it. */
  function WithBlock(content: JsString): JsString { Appended(TrimEnd(content)) }

  function Appended(x: JsString): JsString { x + SUFFIX }

  function WithoutBlock(content: JsString, start: nat, end: nat): JsString
    requires start <= end <= |content|
  {
    var before, after := content[..start], content[end..];
    var kept := if |before| >= 4 && before[|before| - 4..] == [CR, LF, CR, LF] then before[..|before| - 2]
                else if |before| >= 2 && before[|before| - 2..] == [LF, LF] then before[..|before| - 1]
                else before;
    var rest := if [CR, LF] <= after then after[2..] else if [LF] <= after then after[1..] else after;
    kept + rest
  }

  // ----- the fixed texts

  lemma PiecesAreOneLine()
    ensures OneLine(Js("<!-- >>>")) && OneLine(Js("<!-- <<<")) && OneLine(Js("@AI-OFFICE.md"))
    ensures OneLine(Js("# Claude")) && OneLine(Js(" Code")) && OneLine(Js(" compatibility"))
  {
  }

  lemma TailIsOneLine()
    ensures OneLine(MARKER_TAIL)
  {
    assert OneLine(Js(" ai-office")) && OneLine(Js(" managed:")) && OneLine(Js(" canonical-"));
    assert OneLine(Js("project-")) && OneLine(Js("instructions")) && OneLine(Js(" -->"));
  }

  lemma FixedTexts()
    ensures OneLine(START) && OneLine(END) && OneLine(IMPORT) && OneLine(TITLE)
    ensures START[5] != END[5]
    ensures !White(END[61]) && !White(TITLE[26])
  {
    PiecesAreOneLine();
    TailIsOneLine();
    assert START[5] == Js("<!-- >>>")[5] && END[5] == Js("<!-- <<<")[5];
    assert END[61] == Js(" -->")[3];
    assert TITLE[26] == Js(" compatibility")[13];
  }

  // ----- the appended block is found again, once

  lemma AppendedLayout(x: JsString)
    ensures var c, s := Appended(x), |x| + 2;
            && |c| == s + 140 && c[..|x|] == x && c[|x|] == LF && c[|x| + 1] == LF
            && c[s..s + 62] == START && c[s + 62] == LF && c[s + 76] == LF && c[s + 77..s + 139] == END && c[s + 139] == LF
            && c[s..s + 139] == BLOCK && c[..s] == x + [LF, LF] && c[s + 139..] == [LF]
  {
    MarkersNonEmpty();
    assert |BLOCK| == 139;
    var c := Appended(x);
    assert c == (x + [LF, LF]) + (BLOCK + [LF]);
    assert c[|x| + 2..|x| + 141] == BLOCK;
    assert BLOCK[..62] == START && BLOCK[62] == LF && BLOCK[76] == LF && BLOCK[77..] == END;
    assert forall i :: 0 <= i < 139 ==> c[|x| + 2 + i] == BLOCK[i];
  }

  lemma AtInside(s: JsString, i: nat, m: JsString, k: nat)
    requires At(s, i, m) && i <= k < i + |m|
    ensures s[k] == m[k - i]
  {
    assert s[i..i + |m|][k - i] == s[k];
  }

  ghost predicate Free(s: JsString, m: JsString) { forall i :: 0 <= i ==> !At(s, i, m) }

  lemma MarkerPositions(x: JsString, m: JsString, i: nat)
    requires Free(x, m) && OneLine(m) && |m| == 62 && At(Appended(x), i, m)
    ensures i == |x| + 2 || i == |x| + 79
  {
    hide BLOCK, Appended;
    var c, s := Appended(x), |x| + 2;
    AppendedLayout(x);
    forall k | i <= k < i + 62
      ensures c[k] != LF
    {
      AtInside(c, i, m, k);
    }
    if i + 62 <= |x| { AtPrefix(c, x, i, m); }
  }

  lemma AtPrefix(c: JsString, x: JsString, i: nat, m: JsString)
    requires x <= c && i + |m| <= |x| && At(c, i, m)
    ensures At(x, i, m)
  {
    assert c[i..i + |m|] == c[..|x|][i..i + |m|];
  }

  lemma AtLonger(c: JsString, x: JsString, i: nat, m: JsString)
    requires x <= c && At(x, i, m)
    ensures At(c, i, m)
  {
    assert c[i..i + |m|] == c[..|x|][i..i + |m|];
  }

  lemma NotAt(c: JsString, i: nat, found: JsString, m: JsString)
    requires |found| == |m| == 62 && At(c, i, found) && found[5] != m[5]
    ensures !At(c, i, m)
  {
  }

  lemma MarkersFound(x: JsString)
    requires Free(x, START) && Free(x, END)
    ensures |START| == 62 && |END| == 62
    ensures MatchAll(Appended(x), START, 0) == [|x| + 2] && MatchAll(Appended(x), END, 0) == [|x| + 79]
  {
    hide BLOCK, Appended, START, END, MatchAll;
    var c, s := Appended(x), |x| + 2;
    Lengths();
    FixedTexts();
    AppendedLayout(x);
    assert At(c, s, START) && At(c, s + 77, END);
    NotAt(c, s, START, END);
    NotAt(c, s + 77, END, START);
    forall i: nat | i != s
      ensures !At(c, i, START)
    {
      if At(c, i, START) { MarkerPositions(x, START, i); }
    }
    forall i: nat | i != s + 77
      ensures !At(c, i, END)
    {
      if At(c, i, END) { MarkerPositions(x, END, i); }
    }
    OneMatch(c, START, 0, s);
    OneMatch(c, END, 0, s + 77);
  }

  lemma Lengths()
    ensures |START| == 62 && |END| == 62
  {
  }

  // ----- whose file it is

  function AfterFirst(s: JsString): JsString
    requires s != []
  {
    if s[0] == CR && |s| > 1 && s[1] == LF then s[2..] else s[1..]
  }

  lemma NormalizeStep(s: JsString)
    requires s != []
    ensures NormalizeEol(s) == [if s[0] == CR then LF else s[0]] + NormalizeEol(AfterFirst(s))
  {
  }

  lemma {:induction false} NormalizeConcat(a: JsString, b: JsString)
    requires a == [] || a[|a| - 1] != CR
    ensures NormalizeEol(a + b) == NormalizeEol(a) + NormalizeEol(b)
    decreases |a|
  {
    hide NormalizeEol;
    if a == [] {
      EmptyNormal();
      assert a + b == b;
    } else {
      NormalizeStep(a);
      NormalizeStep(a + b);
      NormalizeConcat(AfterFirst(a), b);
      assert AfterFirst(a + b) == AfterFirst(a) + b;
    }
  }

  lemma EmptyNormal()
    ensures NormalizeEol([]) == []
  {
  }

  lemma {:induction false} NormalizePlain(s: JsString)
    requires CR !in s
    ensures NormalizeEol(s) == s
  {
    if s != [] { NormalizePlain(s[1..]); }
  }

  lemma {:induction false} CarriageReturnBreaks(s: JsString)
    requires CR in s
    ensures LF in NormalizeEol(s)
    decreases |s|
  {
    hide NormalizeEol;
    NormalizeStep(s);
    if s[0] != CR {
      assert s == [s[0]] + s[1..];
      CarriageReturnBreaks(s[1..]);
    }
  }

  /** A line without a break can only come from itself. */
  lemma NormalizeOneLine(s: JsString)
    requires LF !in NormalizeEol(s)
    ensures NormalizeEol(s) == s
  {
    hide NormalizeEol;
    if CR in s { CarriageReturnBreaks(s); } else { NormalizePlain(s); }
  }

  lemma FixedPartIsPlain()
    ensures CR !in SUFFIX && CR !in BLOCK && CR !in TITLE && LF !in TITLE
  {
    hide START, END, IMPORT, TITLE;
    FixedTexts();
  }

  lemma NormalizeAppended(x: JsString)
    requires x == [] || !White(x[|x| - 1])
    ensures NormalizeEol(Appended(x)) == Appended(NormalizeEol(x))
  {
    hide BLOCK, SUFFIX, NormalizeEol;
    FixedPartIsPlain();
    NormalizeConcat(x, SUFFIX);
    NormalizePlain(SUFFIX);
  }

  lemma AppendedInjective(a: JsString, b: JsString)
    requires Appended(a) == Appended(b)
    ensures a == b
  {
    hide SUFFIX;
    assert |a| == |b|;
    assert Appended(a)[..|a|] == a && Appended(b)[..|b|] == b;
  }

  lemma OwnFileIsTitled(x: JsString)
    requires x == [] || !White(x[|x| - 1])
    ensures NormalizeEol(Appended(x)) == NormalizeEol(OWN_FILE) <==> x == TITLE
  {
    hide BLOCK, SUFFIX, TITLE, NormalizeEol, Appended;
    NormalizeAppended(x);
    TitleEndsPlainly();
    OwnFileIsAppended();
    NormalizeAppended(TITLE);
    FixedPartIsPlain();
    NormalizePlain(TITLE);
    if NormalizeEol(Appended(x)) == NormalizeEol(OWN_FILE) {
      AppendedInjective(NormalizeEol(x), TITLE);
      NormalizeOneLine(x);
    }
  }

  lemma OwnFileIsAppended()
    ensures OWN_FILE == Appended(TITLE)
  {
  }

  lemma TitleEndsPlainly()
    ensures TITLE != [] && TITLE[|TITLE| - 1] != CR && !White(TITLE[|TITLE| - 1])
  {
    MarkersNonEmpty();
    FixedTexts();
  }

  /** Trimming keeps everything between two visible characters. */
  lemma TrimSpan(s: JsString, p: nat, q: nat)
    requires p <= q < |s| && !White(s[p]) && !White(s[q])
    ensures |Trim(s)| >= q - p + 1
  {
    var r := TrimEnd(s);
    assert forall k :: |r| <= k < |s| ==> s[|r|..][k - |r|] == s[k];
    var t := TrimStart(r);
    assert forall k :: 0 <= k < |r| - |t| ==> r[..|r| - |t|][k] == r[k];
  }

  lemma {:induction false} NormalizeVisible(s: JsString)
    requires exists i :: 0 <= i < |s| && !White(s[i])
    ensures exists i :: 0 <= i < |NormalizeEol(s)| && !White(NormalizeEol(s)[i])
    decreases |s|
  {
    var i :| 0 <= i < |s| && !White(s[i]);
    var n := NormalizeEol(s);
    if s[0] == CR {
      var rest := if |s| > 1 && s[1] == LF then s[2..] else s[1..];
      assert rest[i - (|s| - |rest|)] == s[i];
      NormalizeVisible(rest);
      var j :| 0 <= j < |NormalizeEol(rest)| && !White(NormalizeEol(rest)[j]);
      assert n[j + 1] == NormalizeEol(rest)[j];
    } else if i > 0 {
      assert s[1..][i - 1] == s[i];
      NormalizeVisible(s[1..]);
      var j :| 0 <= j < |NormalizeEol(s[1..])| && !White(NormalizeEol(s[1..])[j]);
      assert n[j + 1] == NormalizeEol(s[1..])[j];
    } else {
      assert n[0] == s[0];
    }
  }

  /** Text of one's own in front makes the trimmed file longer than the block. */
  lemma VisibleTextShows(x: JsString)
    requires x != [] && !White(x[|x| - 1])
    ensures Trim(NormalizeEol(Appended(x))) != Trim(NormalizeEol(BLOCK))
  {
    hide BLOCK, TITLE, NormalizeEol, START, END, Trim, Appended;
    NormalizeAppended(x);
    FixedPartIsPlain();
    NormalizePlain(BLOCK);
    NormalizeVisible(x);
    var n := NormalizeEol(x);
    var p :| 0 <= p < |n| && !White(n[p]);
    AppendedLayout(n);
    FixedTexts();
    var c := Appended(n);
    assert c[p] == c[..|n|][p];
    assert c[|n| + 79..|n| + 141][61] == END[61];
    TrimSpan(c, p, |n| + 140);
    TrimIsShorter(BLOCK);
    assert c[|n| + 2..|n| + 141] == BLOCK;
  }

  lemma TrimIsShorter(s: JsString)
    ensures |Trim(s)| <= |s|
  {
  }

  // ----- adding the block and taking it out again

  /** No marker stands anywhere in the text. */
  lemma {:induction false} NothingFound(s: JsString, m: JsString, i: nat)
    requires m != [] && MatchAll(s, m, i) == []
    ensures forall k :: i <= k ==> !At(s, k, m)
    decreases |s| - i
  {
    if i + |m| <= |s| && !At(s, i, m) { NothingFound(s, m, i + 1); }
  }

  lemma UnmarkedIsFree(c: JsString)
    requires Analyze(Some(c)).UnmanagedBridge? || Analyze(Some(c)).ImportedDirectly?
    ensures Free(c, START) && Free(c, END)
  {
    hide START, END, NormalizeEol, Trim, DirectImport, At, BLOCK;
    MarkersNonEmpty();
    NothingFound(c, START, 0);
    NothingFound(c, END, 0);
  }

  /** A text is an ordinary user file exactly when it has no marker and no import line. */
  lemma UnmanagedIff(c: JsString)
    ensures Analyze(Some(c)).UnmanagedBridge? <==> Free(c, START) && Free(c, END) && !DirectImport(c)
  {
    hide START, END, NormalizeEol, Trim, DirectImport, At, BLOCK;
    MarkersNonEmpty();
    if Analyze(Some(c)).UnmanagedBridge? {
      UnmarkedIsFree(c);
    } else if Free(c, START) && Free(c, END) {
      NoMatch(c, START, 0);
      NoMatch(c, END, 0);
    }
  }

  lemma TrimmedIsFree(c: JsString, m: JsString)
    requires Free(c, m)
    ensures Free(TrimEnd(c), m)
  {
    forall i: nat
      ensures !At(TrimEnd(c), i, m)
    {
      if At(TrimEnd(c), i, m) { AtLonger(c, TrimEnd(c), i, m); }
    }
  }

  lemma EmptyIsOwn()
    ensures Trim(NormalizeEol(Appended([]))) == Trim(NormalizeEol(BLOCK))
  {
    hide NormalizeEol, START, END, IMPORT;
    FixedPartIsPlain();
    NormalizePlain(SUFFIX);
    NormalizePlain(BLOCK);
    assert Appended([]) == SUFFIX;
    BlockEdges();
    TrimPadded(BLOCK);
  }

  lemma BlockEdges()
    ensures BLOCK != [] && !White(BLOCK[0]) && !White(BLOCK[|BLOCK| - 1])
  {
    MarkersNonEmpty();
    FixedTexts();
    assert START[0] == Js("<!-- >>>")[0];
    assert BLOCK[0] == START[0] && BLOCK[138] == END[61];
  }

  lemma TrimEndStep(s: JsString, c: CodeUnit)
    requires White(c)
    ensures TrimEnd(s + [c]) == TrimEnd(s)
  {
    hide White;
    assert (s + [c])[..|s|] == s;
  }

  lemma TrimStartStep(c: CodeUnit, s: JsString)
    requires White(c)
    ensures TrimStart([c] + s) == TrimStart(s)
  {
    hide White;
    assert ([c] + s)[1..] == s;
  }

  lemma TrimPadded(b: JsString)
    requires b != [] && !White(b[0]) && !White(b[|b| - 1])
    ensures Trim([LF, LF] + b + [LF]) == b && Trim(b) == b
  {
    var t := [LF, LF] + b;
    TrimEndStep(t, LF);
    assert t[|t| - 1] == b[|b| - 1];
    assert t == [LF] + ([LF] + b);
    TrimStartStep(LF, [LF] + b);
    TrimStartStep(LF, b);
  }

  /** The appended block is found where it was put, as it was put. The file then counts as
      AI Office's own exactly when the user's text was blank or the generated title. */
  lemma AppendedIsManaged(x: JsString)
    requires Free(x, START) && Free(x, END) && (x == [] || !White(x[|x| - 1]))
    ensures Analyze(Some(Appended(x))) == ManagedBridge(|x| + 2, |x| + 141, x == TITLE || x == [], true)
  {
    hide BLOCK, SUFFIX, TITLE, START, END, NormalizeEol, Trim, MatchAll, Appended, DirectImport, OWN_FILE;
    MarkersFound(x);
    AppendedLayout(x);
    OwnFileIsTitled(x);
    if x == [] { EmptyIsOwn(); } else { VisibleTextShows(x); }
  }

  lemma WithoutAppended(x: JsString)
    ensures |x| + 141 <= |Appended(x)| && WithoutBlock(Appended(x), |x| + 2, |x| + 141) == x + [LF]
  {
    hide BLOCK, SUFFIX, Appended;
    AppendedLayout(x);
    var before := x + [LF, LF];
    assert before[|before| - 2..] == [LF, LF];
    assert before[|before| - 2] == LF && (|before| >= 4 ==> before[|before| - 4..][2] == before[|before| - 2]);
    assert before[..|before| - 1] == x + [LF];
    assert [LF][1..] == [];
  }

  lemma WhiteInside(t: JsString, k: nat, e: nat, j: nat)
    requires k <= j < e <= |t| && AllWhite(t[k..e])
    ensures White(t[j])
  {
    assert t[k..e][j - k] == t[j];
  }

  /** Nothing but white space up to the end of right-trimmed text means there is nothing. */
  lemma WhiteToTheEnd(c: JsString, k: nat, e: nat)
    requires var r := TrimEnd(c); k <= |r| <= e <= |r| + 1 && AllWhite((r + [LF])[k..e])
    ensures k == |TrimEnd(c)| && AllWhite(c[k..])
  {
    var t := TrimEnd(c) + [LF];
    if k < |TrimEnd(c)| { WhiteInside(t, k, e, |TrimEnd(c)| - 1); }
    assert c[|TrimEnd(c)|..] == c[k..];
  }

  /** Right-trimming and ending the last line does not create an import line. */
  lemma TrimmedImport(c: JsString)
    requires DirectImport(TrimEnd(c) + [LF])
    ensures DirectImport(c)
  {
    hide IMPORT, White, TrimEnd;
    var r := TrimEnd(c);
    var t := r + [LF];
    var i :| 0 <= i < |t| && ImportLineAt(t, i);
    TrimmedImportAt(c, i);
  }

  lemma TrimmedImportAt(c: JsString, i: nat)
    requires i < |TrimEnd(c)| + 1 && ImportLineAt(TrimEnd(c) + [LF], i)
    ensures i < |c| && ImportLineAt(c, i)
  {
    hide White, LineEnd, IMPORT, RestIsWhite;
    var r := TrimEnd(c);
    var t := r + [LF];
    var n := |IMPORT|;
    ImportIsVisible();
    LfIsNotInImport(t, i);
    assert At(c, i, IMPORT) by { assert c[i..i + n] == r[i..i + n] == t[i..i + n]; }
    assert i > 0 ==> c[i - 1] == t[i - 1];
    TrimmedRestIsWhite(c, i + n);
  }

  lemma TrimmedRestIsWhite(c: JsString, k: nat)
    requires k <= |TrimEnd(c)| && RestIsWhite(TrimEnd(c) + [LF], k)
    ensures RestIsWhite(c, k)
  {
    hide White, LineEnd, TrimEnd;
    var r := TrimEnd(c);
    var t := r + [LF];
    var e :| k <= e <= |t| && WhiteUntil(t, k, e);
    if e < |r| {
      assert c[k..e] == t[k..e] && c[e] == t[e];
      assert WhiteUntil(c, k, e);
    } else {
      WhiteToTheEnd(c, k, e);
      assert c[k..|c|] == c[k..];
      assert WhiteUntil(c, k, |c|);
    }
  }

  lemma ImportIsVisible()
    ensures |IMPORT| == 13 && OneLine(IMPORT)
  {
    FixedTexts();
  }

  lemma LfIsNotInImport(t: JsString, i: nat)
    requires |t| > 0 && t[|t| - 1] == LF && At(t, i, IMPORT)
    ensures i + |IMPORT| < |t|
  {
    hide IMPORT;
    ImportIsVisible();
    if i + |IMPORT| == |t| { AtInside(t, i, IMPORT, |t| - 1); }
  }

  lemma EndedIsFree(x: JsString, m: JsString)
    requires Free(x, m) && OneLine(m) && m != []
    ensures Free(x + [LF], m)
  {
    forall i: nat
      ensures !At(x + [LF], i, m)
    {
      if At(x + [LF], i, m) {
        if i + |m| <= |x| { AtPrefix(x + [LF], x, i, m); } else { AtInside(x + [LF], i, m, |x|); }
      }
    }
  }

  /** What is left after an uninstall is an ordinary user file again. */
  lemma RestoredIsUnmanaged(c: JsString)
    requires Analyze(Some(c)).UnmanagedBridge?
    ensures Analyze(Some(TrimEnd(c) + [LF])).UnmanagedBridge?
  {
    hide START, END, NormalizeEol, Trim, At, BLOCK, DirectImport, TrimEnd;
    UnmarkedIsFree(c);
    TrimmedIsFree(c, START);
    TrimmedIsFree(c, END);
    FixedTexts();
    MarkersNonEmpty();
    EndedIsFree(TrimEnd(c), START);
    EndedIsFree(TrimEnd(c), END);
    var t := TrimEnd(c) + [LF];
    NoMatch(t, START, 0);
    NoMatch(t, END, 0);
    if DirectImport(t) { TrimmedImport(c); }
  }

  /** Installing over a user's file and uninstalling again gives the text back, right-trimmed
      and ended with one line feed, exactly when the text is neither blank nor just the title of
      the generated file. In those two cases the file counts as generated and would be deleted. */
  lemma BlockComesOut(c: JsString)
    requires Analyze(Some(c)).UnmanagedBridge?
    ensures var b := Analyze(Some(WithBlock(c)));
            && b.ManagedBridge? && b.integrated
            && (b.owned <==> TrimEnd(c) == [] || TrimEnd(c) == TITLE)
            && b.start <= b.end <= |WithBlock(c)|
            && WithoutBlock(WithBlock(c), b.start, b.end) == TrimEnd(c) + [LF]
            && Analyze(Some(TrimEnd(c) + [LF])).UnmanagedBridge?
  {
    hide BLOCK, SUFFIX, TITLE, START, END, Appended, Analyze, WithoutBlock, TrimEnd;
    UnmarkedIsFree(c);
    TrimmedIsFree(c, START);
    TrimmedIsFree(c, END);
    AppendedIsManaged(TrimEnd(c));
    WithoutAppended(TrimEnd(c));
    RestoredIsUnmanaged(c);
  }

  /** The generated file is recognised as its own. */
  lemma GeneratedFileIsOwn()
    ensures Analyze(Some(OWN_FILE)) == ManagedBridge(29, 168, true, true)
  {
    hide BLOCK, SUFFIX, Analyze, Appended;
    FixedTexts();
    MarkersNonEmpty();
    TitleEndsPlainly();
    ShortIsFree(TITLE, START);
    ShortIsFree(TITLE, END);
    AppendedIsManaged(TITLE);
    OwnFileIsAppended();
  }

  lemma ShortIsFree(s: JsString, m: JsString)
    requires |s| < |m|
    ensures Free(s, m)
  {
  }
}
