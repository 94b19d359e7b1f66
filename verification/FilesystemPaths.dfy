/** Relative paths as the filesystem connector sees them: `/`-separated text, and the list of
    segments it splits into. Prefix tests on text mean prefixes of segment lists. */
module FilesystemPaths {
  import opened Options
  import opened JsStrings
  import opened Utf

  const SLASH: CodeUnit := 0x2F

  type Segment = JsString

  type Path = seq<Segment>

  function Parent(p: Path): Path
    requires p != []
  {
    p[..|p| - 1]
  }

  // ----- text and segments

  function Split(s: JsString): (p: Path)
    ensures p != []
  {
    if s == [] then [[]]
    else
      var rest := Split(s[1..]);
      if s[0] == SLASH then [[]] + rest else [[s[0]] + rest[0]] + rest[1..]
  }

  function Join(p: Path): JsString {
    if p == [] then [] else if |p| == 1 then p[0] else p[0] + [SLASH] + Join(p[1..])
  }

  predicate NoSlash(s: JsString) { SLASH !in s }

  /** A path whose segments really are segments. */
  predicate Segmented(p: Path) {
    forall i :: 0 <= i < |p| ==> NoSlash(p[i]) && p[i] != []
  }

  lemma {:induction false} SplitOfSegment(s: JsString, rest: JsString)
    requires NoSlash(s)
    ensures Split(s) == [s]
    ensures Split(s + [SLASH] + rest) == [s] + Split(rest)
  {
    var t := s + [SLASH] + rest;
    if s == [] {
      assert t[1..] == rest;
    } else {
      SplitOfSegment(s[1..], rest);
      assert t[1..] == s[1..] + [SLASH] + rest;
      assert s == [s[0]] + s[1..];
      assert ([s[1..]] + Split(rest))[1..] == Split(rest);
    }
  }

  lemma {:induction false} SplitJoin(p: Path)
    requires p != [] && forall i :: 0 <= i < |p| ==> NoSlash(p[i])
    ensures Split(Join(p)) == p
  {
    if |p| == 1 {
      SplitOfSegment(p[0], []);
    } else {
      SplitOfSegment(p[0], Join(p[1..]));
      SplitJoin(p[1..]);
    }
  }

  lemma {:induction false} JoinSplit(s: JsString)
    ensures Join(Split(s)) == s
    ensures forall i :: 0 <= i < |Split(s)| ==> NoSlash(Split(s)[i])
  {
    if s != [] {
      JoinSplit(s[1..]);
      assert s == [s[0]] + s[1..];
    }
  }

  lemma {:induction false} JoinConcat(p: Path, q: Path)
    requires p != [] && q != []
    ensures Join(p + q) == Join(p) + [SLASH] + Join(q)
  {
    if |p| == 1 {
      assert (p + q)[1..] == q;
    } else {
      JoinConcat(p[1..], q);
      assert (p + q)[1..] == p[1..] + q;
    }
  }

  // ----- prefixes

  predicate Matches(path: JsString, prefix: JsString) {
    path == prefix || prefix + [SLASH] <= path
  }

  predicate CanContain(path: JsString, prefix: JsString) {
    path == [] || Matches(prefix, path)
  }

  datatype Classification = Inside | Ancestor | Denied

  function Classify(path: JsString, allowed: Option<seq<JsString>>): Classification {
    match allowed
    case None => Inside
    case Some(prefixes) =>
      if exists i :: 0 <= i < |prefixes| && Matches(path, prefixes[i]) then Inside
      else if exists i :: 0 <= i < |prefixes| && CanContain(path, prefixes[i]) then Ancestor
      else Denied
  }

  lemma MatchesTransitive(a: JsString, b: JsString, c: JsString)
    requires Matches(a, b) && Matches(b, c)
    ensures Matches(a, c)
  {
    if a != b && b != c {
      assert (c + [SLASH]) <= b <= b + [SLASH] <= a;
    }
  }

  /** Two prefixes of one path are comparable. */
  lemma MatchesComparable(path: JsString, a: JsString, b: JsString)
    requires Matches(path, a) && Matches(path, b)
    ensures Matches(a, b) || Matches(b, a)
  {
    if path != a && path != b {
      assert a + [SLASH] == path[..|a| + 1] && b + [SLASH] == path[..|b| + 1];
      assert a == path[..|a|] && b == path[..|b|];
      if |a| < |b| {
        assert a + [SLASH] == b[..|a| + 1];
      } else if |b| < |a| {
        assert b + [SLASH] == a[..|b| + 1];
      }
    }
  }

  lemma MatchesAntisymmetric(a: JsString, b: JsString)
    requires Matches(a, b) && Matches(b, a)
    ensures a == b
  {
  }

  /** On joined segments the text test is the segment test: `ab` is not inside `a`. */
  lemma MatchesIsPrefix(p: Path, q: Path)
    requires p != [] && q != [] && Segmented(p) && Segmented(q)
    ensures Matches(Join(p), Join(q)) <==> q <= p
  {
    if q <= p {
      PrefixMatches(p, q);
    } else if Matches(Join(p), Join(q)) {
      MatchIsPrefix(p, q);
    }
  }

  lemma PrefixMatches(p: Path, q: Path)
    requires q != [] && q <= p
    ensures Matches(Join(p), Join(q))
  {
    if q != p {
      assert p == q + p[|q|..];
      JoinConcat(q, p[|q|..]);
    }
  }

  lemma MatchIsPrefix(p: Path, q: Path)
    requires p != [] && q != [] && Segmented(p) && Segmented(q) && Matches(Join(p), Join(q))
    ensures q <= p
  {
    hide Split, Join;
    SplitJoin(p);
    SplitJoin(q);
    if Join(p) != Join(q) {
      var rest := Join(p)[|Join(q)| + 1..];
      assert Join(p) == Join(q) + [SLASH] + rest;
      SplitAppend(q, rest);
      assert p == q + Split(rest);
    }
  }

  lemma {:induction false} SplitAppend(q: Path, rest: JsString)
    requires q != [] && Segmented(q)
    ensures Split(Join(q) + [SLASH] + rest) == q + Split(rest)
  {
    hide Split;
    SplitOfSegment(q[0], rest);
    if |q| > 1 {
      SplitAppend(q[1..], rest);
      var tail := Join(q[1..]) + [SLASH] + rest;
      assert Join(q) + [SLASH] + rest == q[0] + [SLASH] + tail;
      SplitOfSegment(q[0], tail);
      assert q == [q[0]] + q[1..];
    }
  }

  // ----- what counts as an acceptable relative path

  datatype PathLimits = PathLimits(maxPathBytes: nat, maxPathSegments: nat)

  function LowerUnit(c: CodeUnit): CodeUnit { if 0x41 <= c <= 0x5A then c + 0x20 else c }

  function Lower(s: JsString): (r: JsString)
    ensures |r| == |s|
  {
    seq(|s|, i requires 0 <= i < |s| => LowerUnit(s[i]))
  }

  predicate Control(c: CodeUnit) { c < 0x20 || c == 0x7F }

  /** `%2e`, `%2f` or `%5c` in either case. */
  predicate EncodedAt(s: JsString, i: nat) {
    && i + 2 < |s| && s[i] == 0x25
    && ((s[i + 1] == 0x32 && LowerUnit(s[i + 2]) in {0x65, 0x66}) || (s[i + 1] == 0x35 && LowerUnit(s[i + 2]) == 0x63))
  }

  predicate HasEncoded(s: JsString) { exists i :: 0 <= i < |s| && EncodedAt(s, i) }

  predicate HasUnsafeUnit(s: JsString) {
    exists i :: 0 <= i < |s| && (s[i] == 0x5C || Control(s[i]))
  }

  /** The stem before the first dot is one of the reserved device names. */
  predicate WindowsReserved(segment: Segment) {
    var stem := Stem(Lower(segment));
    0x2028 !in segment && 0x2029 !in segment && (
    || stem in {Js("con"), Js("prn"), Js("aux"), Js("nul")}
    || (|stem| == 4 && stem[..3] in {Js("com"), Js("lpt")} && 0x31 <= stem[3] <= 0x39))
  }

  function Stem(s: JsString): JsString {
    if s == [] || s[0] == 0x2E then [] else [s[0]] + Stem(s[1..])
  }

  predicate PortableSegment(segment: Segment) {
    && segment != [] && segment != [0x2E] && segment != [0x2E, 0x2E] && 0x3A !in segment
    && segment[|segment| - 1] != 0x2E && segment[|segment| - 1] != 0x20
    && !WindowsReserved(segment)
  }

  /** The normaliser accepts a path or throws; what it accepts it returns unchanged. */
  predicate Normalizable(value: JsString, limits: PathLimits, allowRoot: bool) {
    || (allowRoot && value == [])
    || (&& value != [] && value[0] != SLASH && value[|value| - 1] != SLASH
        && !HasUnsafeUnit(value) && WellFormed(value) && !HasEncoded(value)
        && |Split(value)| <= limits.maxPathSegments
        && (forall i :: 0 <= i < |Split(value)| ==> PortableSegment(Split(value)[i]))
        && |Utf8(value)| <= limits.maxPathBytes)
  }

  lemma {:induction false} WellFormedFront(a: JsString, rest: JsString)
    requires WellFormed(a + [SLASH] + rest)
    ensures WellFormed(a)
    decreases |a|
  {
    if a != [] {
      var s := a + [SLASH] + rest;
      assert s[0] == a[0] && s[1] == if |a| > 1 then a[1] else SLASH;
      var k := if PairAt(s) then 2 else 1;
      assert PairAt(s) == PairAt(a);
      assert s[k..] == a[k..] + [SLASH] + rest;
      WellFormedFront(a[k..], rest);
    }
  }

  lemma {:induction false} Utf8Front(a: JsString, rest: JsString)
    ensures |Utf8(a)| <= |Utf8(a + [SLASH] + rest)|
    decreases |a|
  {
    if a != [] {
      var s := a + [SLASH] + rest;
      assert s[0] == a[0] && s[1] == if |a| > 1 then a[1] else SLASH;
      var k := if PairAt(s) then 2 else 1;
      assert PairAt(s) == PairAt(a);
      assert s[k..] == a[k..] + [SLASH] + rest;
      Utf8Front(a[k..], rest);
    }
  }

  lemma FrontKeepsUnits(a: JsString, s: JsString)
    requires a <= s
    ensures HasUnsafeUnit(a) ==> HasUnsafeUnit(s)
    ensures HasEncoded(a) ==> HasEncoded(s)
  {
    assert forall i :: 0 <= i < |a| ==> s[i] == a[i];
    if HasEncoded(a) {
      var i :| 0 <= i < |a| && EncodedAt(a, i);
      assert EncodedAt(s, i);
    }
  }

  /** Every ancestor of an acceptable path is acceptable. */
  lemma AncestorIsNormalizable(p: Path, q: Path, limits: PathLimits)
    requires q != [] && q <= p && Segmented(p) && Normalizable(Join(p), limits, false)
    ensures Normalizable(Join(q), limits, false)
  {
    hide Split, Join, Utf8, WellFormed, HasUnsafeUnit, HasEncoded, PortableSegment;
    if q != p {
      assert p == q + p[|q|..];
      JoinConcat(q, p[|q|..]);
      SplitJoin(p);
      SplitJoin(q);
      var a, rest := Join(q), Join(p[|q|..]);
      assert Join(p) == a + [SLASH] + rest;
      WellFormedFront(a, rest);
      Utf8Front(a, rest);
      FrontKeepsUnits(a, a + [SLASH] + rest);
      JoinEnds(q);
    }
  }

  lemma {:induction false} JoinEnds(q: Path)
    requires q != [] && Segmented(q)
    ensures Join(q) != [] && Join(q)[0] != SLASH && Join(q)[|Join(q)| - 1] != SLASH
  {
    if |q| == 1 {
      assert q[0][0] in q[0] && q[0][|q[0]| - 1] in q[0];
    } else {
      JoinEnds(q[1..]);
      assert q[0][0] in q[0];
    }
  }
}
