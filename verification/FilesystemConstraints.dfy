/** How the constraints of a resource and of any number of grants combine into one effective
    set, and which requests that set accepts. */
module FilesystemConstraints {
  import opened Options
  import opened JsStrings
  import opened FilesystemPaths

  // ----- what a grant may say

  datatype LimitName =
    | MaxFileBytes | MaxOutputBytes | MaxResults | MaxVisitedEntries | MaxVisitedFiles | MaxVisitedDirectories
    | MaxDepth | MaxPathBytes | MaxPathSegments | MaxDiffBytes | MaxInlineContentBytes

  function HardLimit(name: LimitName): nat {
    match name
    case MaxFileBytes => 1024 * 1024
    case MaxOutputBytes => 48 * 1024
    case MaxResults => 1000
    case MaxVisitedEntries => 10_000
    case MaxVisitedFiles => 5000
    case MaxVisitedDirectories => 1000
    case MaxDepth => 8
    case MaxPathBytes => 1024
    case MaxPathSegments => 128
    case MaxDiffBytes => 48 * 1024
    case MaxInlineContentBytes => 16 * 1024
  }

  /** A constraint record, every field optional. */
  datatype Constraints = Constraints(
    allowedPaths: Option<seq<JsString>>,
    deniedPaths: Option<seq<JsString>>,
    allowedExtensions: Option<seq<JsString>>,
    limits: map<LimitName, nat>,
    allowMutation: Option<bool>)

  datatype Effective = Effective(
    allowedPaths: Option<seq<JsString>>,
    deniedPaths: seq<JsString>,
    allowedExtensions: Option<seq<JsString>>,
    limits: map<LimitName, nat>,
    allowMutation: bool)

  const HARD_PATHS := PathLimits(1024, 128)

  /** `.` and one alphanumeric, then letters, digits, `.`, `_`, `-`. */
  predicate ExtensionText(s: JsString) {
    && |s| >= 2 && s[0] == 0x2E && Alphanumeric(s[1])
    && forall i :: 2 <= i < |s| ==> Alphanumeric(s[i]) || s[i] == 0x2E || s[i] == 0x5F || s[i] == 0x2D
  }

  predicate Alphanumeric(c: CodeUnit) { 0x30 <= c <= 0x39 || 0x41 <= c <= 0x5A || 0x61 <= c <= 0x7A }

  function LowerAll(s: seq<JsString>): seq<JsString> {
    seq(|s|, i requires 0 <= i < |s| => Lower(s[i]))
  }

  /** Drops repetitions, keeping first occurrences. */
  function Dedupe(s: seq<JsString>): seq<JsString> {
    if s == [] then []
    else
      var front := Dedupe(s[..|s| - 1]);
      if s[|s| - 1] in front then front else front + [s[|s| - 1]]
  }

  function SortedSet(s: seq<JsString>): seq<JsString> { SortStrings(Dedupe(s)) }

  predicate PrefixesAcceptable(list: Option<seq<JsString>>) {
    list.Some? ==> forall i :: 0 <= i < |list.value| ==> Normalizable(list.value[i], HARD_PATHS, false)
  }

  /** Parsing refuses unacceptable prefixes and extensions and puts every list in one order. */
  function Parse(raw: Constraints): Option<Constraints> {
    if !PrefixesAcceptable(raw.allowedPaths) || !PrefixesAcceptable(raw.deniedPaths) then None
    else if raw.allowedExtensions.Some? && exists i :: 0 <= i < |raw.allowedExtensions.value| && !ExtensionText(raw.allowedExtensions.value[i])
    then None
    else Some(raw.(
      allowedPaths := if raw.allowedPaths.None? then None else Some(SortedSet(raw.allowedPaths.value)),
      deniedPaths := if raw.deniedPaths.None? then None else Some(SortedSet(raw.deniedPaths.value)),
      allowedExtensions := if raw.allowedExtensions.None? then None else Some(SortedSet(LowerAll(raw.allowedExtensions.value)))))
  }

  lemma {:induction false} DedupeProperties(s: seq<JsString>)
    ensures forall x :: x in Dedupe(s) <==> x in s
    ensures forall i, j :: 0 <= i < j < |Dedupe(s)| ==> Dedupe(s)[i] != Dedupe(s)[j]
  {
    if s != [] {
      DedupeProperties(s[..|s| - 1]);
      assert s == s[..|s| - 1] + [s[|s| - 1]];
    }
  }

  lemma {:induction false} DistinctCount(s: seq<JsString>, x: JsString)
    requires forall i, j :: 0 <= i < j < |s| ==> s[i] != s[j]
    ensures multiset(s)[x] <= 1
  {
    if s != [] {
      assert s == s[..|s| - 1] + [s[|s| - 1]];
      DistinctCount(s[..|s| - 1], x);
      if x == s[|s| - 1] { assert x !in s[..|s| - 1]; }
    }
  }

  lemma SortedSetProperties(s: seq<JsString>)
    ensures StrictlySorted(SortedSet(s)) && forall x :: x in SortedSet(s) <==> x in s
  {
    var d := Dedupe(s);
    DedupeProperties(s);
    SortByProperties(Self, d);
    var t := SortStrings(d);
    forall i, j | 0 <= i < j < |t|
      ensures Less(t[i], t[j])
    {
      DistinctCount(d, t[i]);
      LessTotal(t[i], t[j]);
      if t[i] == t[j] { TwoPositions(t, i, j); }
      assert !Less(Self(t[j]), Self(t[i]));
    }
  }

  // ----- intersections

  function Pushes(first: JsString, right: seq<JsString>): seq<JsString> {
    if right == [] then []
    else
      var before, second := Pushes(first, right[..|right| - 1]), right[|right| - 1];
      if Matches(first, second) then before + [first]
      else if Matches(second, first) then before + [second]
      else before
  }

  function AllPushes(left: seq<JsString>, right: seq<JsString>): seq<JsString> {
    if left == [] then [] else AllPushes(left[..|left| - 1], right) + Pushes(left[|left| - 1], right)
  }

  function IntersectPrefixes(left: seq<JsString>, right: seq<JsString>): seq<JsString> {
    SortedSet(AllPushes(left, right))
  }

  method IntersectPrefixLists(left: seq<JsString>, right: seq<JsString>) returns (r: seq<JsString>)
    ensures r == IntersectPrefixes(left, right)
  {
    var result: seq<JsString> := [];
    for i := 0 to |left|
      invariant result == AllPushes(left[..i], right)
    {
      var first := left[i];
      for j := 0 to |right|
        invariant result == AllPushes(left[..i], right) + Pushes(first, right[..j])
      {
        var second := right[j];
        assert right[..j + 1][..j] == right[..j];
        if Matches(first, second) {
          result := result + [first];
        } else if Matches(second, first) {
          result := result + [second];
        }
      }
      assert right[..|right|] == right;
      assert left[..i + 1][..i] == left[..i];
    }
    assert left[..|left|] == left;
    return SortedSet(result);
  }

  predicate InsideSome(path: JsString, prefixes: seq<JsString>) {
    exists i :: 0 <= i < |prefixes| && Matches(path, prefixes[i])
  }

  lemma {:induction false} PushesAre(first: JsString, right: seq<JsString>, m: JsString)
    ensures m in Pushes(first, right) <==>
            (m == first && InsideSome(first, right)) || (m in right && Matches(m, first))
  {
    if right != [] {
      var before, second := right[..|right| - 1], right[|right| - 1];
      PushesAre(first, before, m);
      assert right == before + [second];
      assert InsideSome(first, right) <==> InsideSome(first, before) || Matches(first, second) by {
        if InsideSome(first, before) {
          var i :| 0 <= i < |before| && Matches(first, before[i]);
          assert right[i] == before[i];
        }
      }
      if Matches(first, second) && Matches(second, first) { MatchesAntisymmetric(first, second); }
      if m == second && Matches(first, second) && Matches(m, first) { MatchesAntisymmetric(first, second); }
    }
  }

  lemma {:induction false} AllPushesAre(left: seq<JsString>, right: seq<JsString>, m: JsString)
    ensures m in AllPushes(left, right) <==>
            (m in left && InsideSome(m, right)) || (m in right && InsideSome(m, left))
  {
    if left != [] {
      var before, first := left[..|left| - 1], left[|left| - 1];
      AllPushesAre(before, right, m);
      PushesAre(first, right, m);
      assert left == before + [first];
      assert InsideSome(m, left) <==> InsideSome(m, before) || Matches(m, first) by {
        if InsideSome(m, before) {
          var i :| 0 <= i < |before| && Matches(m, before[i]);
          assert left[i] == before[i];
        }
      }
    }
  }

  lemma IntersectionMembers(left: seq<JsString>, right: seq<JsString>)
    ensures StrictlySorted(IntersectPrefixes(left, right))
    ensures forall m :: m in IntersectPrefixes(left, right) <==>
                          (m in left && InsideSome(m, right)) || (m in right && InsideSome(m, left))
  {
    SortedSetProperties(AllPushes(left, right));
    forall m { AllPushesAre(left, right, m); }
  }

  /** A combined list denotes exactly the paths inside both lists. */
  lemma IntersectionDenotes(left: seq<JsString>, right: seq<JsString>, path: JsString)
    ensures InsideSome(path, IntersectPrefixes(left, right)) <==> InsideSome(path, left) && InsideSome(path, right)
  {
    IntersectionMembers(left, right);
    var both := IntersectPrefixes(left, right);
    if InsideSome(path, both) {
      var i :| 0 <= i < |both| && Matches(path, both[i]);
      var m := both[i];
      assert m in both;
      InsideTransitive(path, m, left);
      InsideTransitive(path, m, right);
      if m in left { var k :| 0 <= k < |left| && left[k] == m; } else { var k :| 0 <= k < |right| && right[k] == m; }
    }
    if InsideSome(path, left) && InsideSome(path, right) {
      var a :| 0 <= a < |left| && Matches(path, left[a]);
      var b :| 0 <= b < |right| && Matches(path, right[b]);
      MatchesComparable(path, left[a], right[b]);
      var m := if Matches(left[a], right[b]) then left[a] else right[b];
      assert m in both by {
        if Matches(left[a], right[b]) { assert m in left && InsideSome(m, right); }
        else { assert m in right && InsideSome(m, left); }
      }
      var k :| 0 <= k < |both| && both[k] == m;
    }
  }

  lemma InsideTransitive(path: JsString, m: JsString, list: seq<JsString>)
    requires Matches(path, m) && InsideSome(m, list)
    ensures InsideSome(path, list)
  {
    var i :| 0 <= i < |list| && Matches(m, list[i]);
    MatchesTransitive(path, m, list[i]);
  }

  // ----- combining any number of lists

  type Lists = seq<seq<JsString>>

  function CombinePrefixes(lists: Lists): seq<JsString>
    requires lists != []
  {
    if |lists| == 1 then lists[0]
    else IntersectPrefixes(CombinePrefixes(lists[..|lists| - 1]), lists[|lists| - 1])
  }

  predicate InsideAll(path: JsString, lists: Lists) {
    forall i :: 0 <= i < |lists| ==> InsideSome(path, lists[i])
  }

  predicate Listed(m: JsString, lists: Lists) {
    exists i :: 0 <= i < |lists| && m in lists[i]
  }

  lemma {:induction false} CombinedDenotes(lists: Lists, path: JsString)
    requires lists != []
    ensures InsideSome(path, CombinePrefixes(lists)) <==> InsideAll(path, lists)
  {
    if |lists| > 1 {
      CombinedDenotes(lists[..|lists| - 1], path);
      IntersectionDenotes(CombinePrefixes(lists[..|lists| - 1]), lists[|lists| - 1], path);
      assert lists == lists[..|lists| - 1] + [lists[|lists| - 1]];
    }
  }

  /** Which prefixes survive, said without any order: those listed somewhere and inside
      every list. */
  lemma {:induction false} CombinedMembers(lists: Lists, m: JsString)
    requires lists != []
    ensures m in CombinePrefixes(lists) <==> Listed(m, lists) && InsideAll(m, lists)
  {
    var n := |lists| - 1;
    if n == 0 {
      if m in lists[0] {
        var k :| 0 <= k < |lists[0]| && lists[0][k] == m;
        assert Matches(m, lists[0][k]);
      }
    } else {
      var front, last := lists[..n], lists[n];
      assert lists == front + [last];
      CombinedMembers(front, m);
      CombinedDenotes(front, m);
      IntersectionMembers(CombinePrefixes(front), last);
      assert InsideAll(m, lists) <==> InsideAll(m, front) && InsideSome(m, last);
      assert Listed(m, lists) <==> Listed(m, front) || m in last by {
        if Listed(m, front) { var i :| 0 <= i < |front| && m in front[i]; assert lists[i] == front[i]; }
        if m in last { assert m in lists[n]; }
      }
      if m in last {
        var k :| 0 <= k < |last| && last[k] == m;
        assert InsideSome(m, last);
      }
    }
  }

  ghost predicate SameLists(a: Lists, b: Lists) {
    forall l :: l in a <==> l in b
  }

  /** The combined list does not depend on the order the lists are combined in, nor on
      repetitions: it is the same text. */
  lemma CombinedIgnoresOrder(a: Lists, b: Lists)
    requires a != [] && b != [] && SameLists(a, b)
    requires forall l :: l in a ==> StrictlySorted(l)
    ensures CombinePrefixes(a) == CombinePrefixes(b)
  {
    forall m
      ensures m in CombinePrefixes(a) <==> m in CombinePrefixes(b)
    {
      CombinedMembers(a, m);
      CombinedMembers(b, m);
      if Listed(m, a) { var i :| 0 <= i < |a| && m in a[i]; assert a[i] in b; }
      if Listed(m, b) { var i :| 0 <= i < |b| && m in b[i]; assert b[i] in a; }
      if InsideAll(m, a) { InsideAllSame(m, a, b); }
      if InsideAll(m, b) { InsideAllSame(m, b, a); }
    }
    CombinedSorted(a);
    CombinedSorted(b);
    StrictlySortedUnique(CombinePrefixes(a), CombinePrefixes(b));
  }

  lemma InsideAllSame(m: JsString, a: Lists, b: Lists)
    requires InsideAll(m, a) && forall l :: l in b ==> l in a
    ensures InsideAll(m, b)
  {
    forall i | 0 <= i < |b|
      ensures InsideSome(m, b[i])
    {
      assert b[i] in a;
    }
  }

  lemma CombinedSorted(lists: Lists)
    requires lists != [] && forall l :: l in lists ==> StrictlySorted(l)
    ensures StrictlySorted(CombinePrefixes(lists))
  {
    if |lists| == 1 {
      assert lists[0] in lists;
    } else {
      IntersectionMembers(CombinePrefixes(lists[..|lists| - 1]), lists[|lists| - 1]);
    }
  }

  /** Each path left by more lists is inside some path left by fewer. */
  lemma {:induction false} FewerListsKeepAnAncestor(m: JsString, fewer: Lists)
    requires fewer != [] && InsideAll(m, fewer)
    ensures exists k :: 0 <= k < |CombinePrefixes(fewer)| && Matches(m, CombinePrefixes(fewer)[k])
  {
    CombinedDenotes(fewer, m);
  }

  function Keep(left: seq<JsString>, right: seq<JsString>): seq<JsString> {
    if left == [] then []
    else if left[0] in right then [left[0]] + Keep(left[1..], right)
    else Keep(left[1..], right)
  }

  function IntersectExact(left: seq<JsString>, right: seq<JsString>): seq<JsString> { SortStrings(Keep(left, right)) }

  function CombineExact(lists: Lists): seq<JsString>
    requires lists != []
  {
    if |lists| == 1 then lists[0] else IntersectExact(CombineExact(lists[..|lists| - 1]), lists[|lists| - 1])
  }

  lemma {:induction false} KeepProperties(left: seq<JsString>, right: seq<JsString>)
    ensures forall x :: x in Keep(left, right) <==> x in left && x in right
    ensures StrictlySorted(left) ==> StrictlySorted(Keep(left, right))
  {
    if left != [] {
      KeepProperties(left[1..], right);
      assert left == [left[0]] + left[1..];
      assert StrictlySorted(left) ==> StrictlySorted(left[1..]);
      if left[0] in right && StrictlySorted(left) {
        var rest := Keep(left[1..], right);
        forall j | 0 <= j < |rest|
          ensures Less(left[0], rest[j])
        {
          assert rest[j] in left[1..];
          var k :| 0 <= k < |left[1..]| && left[1..][k] == rest[j];
          assert left[k + 1] == rest[j];
        }
      }
    }
  }

  lemma {:induction false} CombinedExactMembers(lists: Lists)
    requires lists != []
    ensures forall x :: x in CombineExact(lists) <==> forall i :: 0 <= i < |lists| ==> x in lists[i]
    ensures (forall i :: 0 <= i < |lists| ==> StrictlySorted(lists[i])) ==> StrictlySorted(CombineExact(lists))
  {
    if |lists| > 1 {
      var front, last := lists[..|lists| - 1], lists[|lists| - 1];
      CombinedExactMembers(front);
      assert lists == front + [last];
      var kept := Keep(CombineExact(front), last);
      KeepProperties(CombineExact(front), last);
      SortByProperties(Self, kept);
      if forall i :: 0 <= i < |lists| ==> StrictlySorted(lists[i]) {
        assert forall i :: 0 <= i < |front| ==> front[i] == lists[i];
        StrictIsSorted(kept);
        SortOfSorted(Self, kept);
      }
    }
  }

  lemma StrictIsSorted(s: seq<JsString>)
    requires StrictlySorted(s)
    ensures SortedBy(Self, s)
  {
    forall i, j | 0 <= i < j < |s|
      ensures !Less(Self(s[j]), Self(s[i]))
    {
      if Less(s[j], s[i]) {
        LessTransitive(s[i], s[j], s[i]);
        LessIrreflexive(s[i]);
      }
    }
  }

  lemma CombinedExactIgnoresOrder(a: Lists, b: Lists)
    requires a != [] && b != [] && SameLists(a, b) && forall l :: l in a ==> StrictlySorted(l)
    ensures CombineExact(a) == CombineExact(b)
  {
    CombinedExactMembers(a);
    CombinedExactMembers(b);
    forall x
      ensures x in CombineExact(a) <==> x in CombineExact(b)
    {
      assert (forall i :: 0 <= i < |a| ==> x in a[i]) <==> (forall l :: l in a ==> x in l);
      assert (forall i :: 0 <= i < |b| ==> x in b[i]) <==> (forall l :: l in b ==> x in l);
    }
    assert forall i :: 0 <= i < |b| ==> b[i] in a;
    StrictlySortedUnique(CombineExact(a), CombineExact(b));
  }

  // ----- one effective set

  type Grants = seq<Constraints>

  function PathLists(all: Grants): Lists {
    if all == [] then []
    else PathLists(all[..|all| - 1]) + (if all[|all| - 1].allowedPaths.Some? then [all[|all| - 1].allowedPaths.value] else [])
  }

  function ExtensionLists(all: Grants): Lists {
    if all == [] then []
    else ExtensionLists(all[..|all| - 1])
         + (if all[|all| - 1].allowedExtensions.Some? then [all[|all| - 1].allowedExtensions.value] else [])
  }

  function AllDenied(all: Grants): seq<JsString> {
    if all == [] then []
    else AllDenied(all[..|all| - 1]) + (if all[|all| - 1].deniedPaths.Some? then all[|all| - 1].deniedPaths.value else [])
  }

  function Smallest(name: LimitName, all: Grants): nat {
    if all == [] then HardLimit(name)
    else
      var before, last := Smallest(name, all[..|all| - 1]), all[|all| - 1];
      if name in last.limits && last.limits[name] < before then last.limits[name] else before
  }

  const ALL_LIMITS: set<LimitName> := {
    MaxFileBytes, MaxOutputBytes, MaxResults, MaxVisitedEntries, MaxVisitedFiles, MaxVisitedDirectories,
    MaxDepth, MaxPathBytes, MaxPathSegments, MaxDiffBytes, MaxInlineContentBytes }

  function Combine(resource: Constraints, grants: Grants): (e: Effective)
    ensures MaxPathBytes in e.limits && MaxPathSegments in e.limits
  {
    var all := [resource] + grants;
    Effective(
      if PathLists(all) == [] then None else Some(CombinePrefixes(PathLists(all))),
      SortedSet(AllDenied(all)),
      if ExtensionLists(all) == [] then None else Some(CombineExact(ExtensionLists(all))),
      map name | name in ALL_LIMITS :: Smallest(name, all),
      (forall i :: 0 <= i < |grants| ==> grants[i].allowMutation == Some(true)) && resource.allowMutation != Some(false))
  }

  // ----- one request

  datatype Operation = List | Read | Search | Create | Write | Move | Delete

  predicate DirectoryCapable(op: Operation) { op.List? || op.Search? }

  predicate Mutates(op: Operation) { op.Create? || op.Write? || op.Move? || op.Delete? }

  /** The string arguments that are there. */
  datatype Arguments = Arguments(path: Option<JsString>, sourcePath: Option<JsString>, destinationPath: Option<JsString>)

  function Present(s: Option<JsString>): seq<JsString> { if s.None? then [] else [s.value] }

  function OperationPaths(op: Operation, a: Arguments): seq<JsString> {
    if op.Move? then Present(a.sourcePath) + Present(a.destinationPath) else Present(a.path)
  }

  function Basename(path: JsString): JsString { Split(path)[|Split(path)| - 1] }

  /** From the last dot on, lower-cased; a leading dot does not start an extension. */
  function FileExtension(path: JsString): JsString {
    var name := Basename(path);
    var dot := LastDot(name);
    if dot <= 0 then [] else Lower(name[dot..])
  }

  function LastDot(s: JsString): (i: int)
    ensures -1 <= i < |s|
  {
    if s == [] then -1 else if s[|s| - 1] == 0x2E then |s| - 1 else LastDot(s[..|s| - 1])
  }

  datatype Reason =
    | EmptyPathIntersection | EmptyExtensionIntersection | NoPath | PathLimitsExceeded(path: JsString)
    | OutsidePrefixes(path: JsString) | PathDenied(path: JsString) | ExtensionNotAllowed | MutationNotAllowed

  function LimitsOf(e: Effective): PathLimits
    requires MaxPathBytes in e.limits && MaxPathSegments in e.limits
  {
    PathLimits(e.limits[MaxPathBytes], e.limits[MaxPathSegments])
  }

  function PathReasons(op: Operation, path: JsString, e: Effective): seq<Reason>
    requires MaxPathBytes in e.limits && MaxPathSegments in e.limits
  {
    if !Normalizable(path, LimitsOf(e), DirectoryCapable(op)) then [PathLimitsExceeded(path)]
    else
      var c := Classify(path, e.allowedPaths);
      (if c.Denied? || (!DirectoryCapable(op) && !c.Inside?) then [OutsidePrefixes(path)] else [])
      + (if InsideSome(path, e.deniedPaths) then [PathDenied(path)] else [])
  }

  function AllPathReasons(op: Operation, paths: seq<JsString>, e: Effective): seq<Reason>
    requires MaxPathBytes in e.limits && MaxPathSegments in e.limits
  {
    if paths == [] then [] else AllPathReasons(op, paths[..|paths| - 1], e) + PathReasons(op, paths[|paths| - 1], e)
  }

  datatype Verdict = Verdict(ok: bool, effective: Option<Effective>, reasons: seq<Reason>)

  /** Everything a request must satisfy, as one condition. */
  predicate Acceptable(op: Operation, paths: seq<JsString>, e: Effective)
    requires MaxPathBytes in e.limits && MaxPathSegments in e.limits
  {
    && e.allowedPaths != Some([]) && e.allowedExtensions != Some([])
    && (paths == [] ==> DirectoryCapable(op))
    && (forall i :: 0 <= i < |paths| ==> PathReasons(op, paths[i], e) == [])
    && (e.allowedExtensions.Some? && !DirectoryCapable(op) ==>
          forall i :: 0 <= i < |paths| ==> FileExtension(paths[i]) in e.allowedExtensions.value)
    && (Mutates(op) ==> e.allowMutation)
  }

  lemma {:induction false} NoPathReasons(op: Operation, paths: seq<JsString>, e: Effective)
    requires MaxPathBytes in e.limits && MaxPathSegments in e.limits
    ensures AllPathReasons(op, paths, e) == [] <==> forall i :: 0 <= i < |paths| ==> PathReasons(op, paths[i], e) == []
  {
    hide PathReasons;
    if paths != [] {
      NoPathReasons(op, paths[..|paths| - 1], e);
      assert paths == paths[..|paths| - 1] + [paths[|paths| - 1]];
    }
  }

  function OpeningReasons(op: Operation, paths: seq<JsString>, e: Effective): seq<Reason> {
    (if e.allowedPaths == Some([]) then [EmptyPathIntersection] else [])
    + (if e.allowedExtensions == Some([]) then [EmptyExtensionIntersection] else [])
    + (if paths == [] && !DirectoryCapable(op) then [NoPath] else [])
  }

  function ClosingReasons(op: Operation, paths: seq<JsString>, e: Effective): seq<Reason> {
    (if e.allowedExtensions.Some? && !DirectoryCapable(op)
        && exists i :: 0 <= i < |paths| && FileExtension(paths[i]) !in e.allowedExtensions.value
     then [ExtensionNotAllowed] else [])
    + (if Mutates(op) && !e.allowMutation then [MutationNotAllowed] else [])
  }

  /** A request is accepted for want of a reason to refuse it. */
  lemma NoReasonsIsAcceptable(op: Operation, paths: seq<JsString>, e: Effective)
    requires MaxPathBytes in e.limits && MaxPathSegments in e.limits
    ensures OpeningReasons(op, paths, e) + AllPathReasons(op, paths, e) + ClosingReasons(op, paths, e) == []
            <==> Acceptable(op, paths, e)
  {
    hide PathReasons, FileExtension;
    NoPathReasons(op, paths, e);
    var o, p, c := OpeningReasons(op, paths, e), AllPathReasons(op, paths, e), ClosingReasons(op, paths, e);
    assert |o + p + c| == |o| + |p| + |c|;
  }

  function ParseAll(raw: Grants): Option<Grants> {
    if raw == [] then Some([])
    else
      var front, last := ParseAll(raw[..|raw| - 1]), Parse(raw[|raw| - 1]);
      if front.None? || last.None? then None else Some(front.value + [last.value])
  }

  /** What the handler answers: parse everything, combine, then collect every reason to refuse. */
  function Answer(op: Operation, arguments: Arguments, values: Grants, configuration: Constraints): Verdict {
    var resource, grants := Parse(configuration), ParseAll(values);
    if resource.None? || grants.None? then Verdict(false, None, [])
    else
      var e, paths := Combine(resource.value, grants.value), OperationPaths(op, arguments);
      var reasons := OpeningReasons(op, paths, e) + AllPathReasons(op, paths, e) + ClosingReasons(op, paths, e);
      Verdict(reasons == [], Some(e), reasons)
  }

  method CombineAndValidate(op: Operation, arguments: Arguments, values: Grants, configuration: Constraints)
    returns (v: Verdict)
    ensures v == Answer(op, arguments, values, configuration)
    ensures v.ok <==> Accepts(op, arguments, values, configuration)
    ensures v.ok <==> v.effective.Some? && v.reasons == []
  {
    hide PathReasons, FileExtension, Parse, ParseAll, Acceptable, Combine, OpeningReasons, ClosingReasons;
    var resource, grants := Parse(configuration), ParseAll(values);
    if resource.None? || grants.None? {
      return Verdict(false, None, []);
    }
    var e := Combine(resource.value, grants.value);
    var paths := OperationPaths(op, arguments);
    var reasons := OpeningReasons(op, paths, e);
    for i := 0 to |paths|
      invariant reasons == OpeningReasons(op, paths, e) + AllPathReasons(op, paths[..i], e)
    {
      assert paths[..i + 1][..i] == paths[..i];
      reasons := reasons + PathReasons(op, paths[i], e);
    }
    assert paths[..|paths|] == paths;
    reasons := reasons + ClosingReasons(op, paths, e);
    NoReasonsIsAcceptable(op, paths, e);
    return Verdict(reasons == [], Some(e), reasons);
  }

  // ----- more grants never allow more

  ghost predicate Among(few: Grants, many: Grants) { forall g :: g in few ==> g in many }

  lemma {:induction false} PathListsAre(all: Grants, l: seq<JsString>)
    ensures l in PathLists(all) <==> exists i :: 0 <= i < |all| && all[i].allowedPaths == Some(l)
  {
    if all != [] {
      PathListsAre(all[..|all| - 1], l);
      assert all == all[..|all| - 1] + [all[|all| - 1]];
    }
  }

  lemma {:induction false} ExtensionListsAre(all: Grants, l: seq<JsString>)
    ensures l in ExtensionLists(all) <==> exists i :: 0 <= i < |all| && all[i].allowedExtensions == Some(l)
  {
    if all != [] {
      ExtensionListsAre(all[..|all| - 1], l);
      assert all == all[..|all| - 1] + [all[|all| - 1]];
    }
  }

  lemma {:induction false} DeniedAre(all: Grants, x: JsString)
    ensures x in AllDenied(all) <==>
            exists i :: 0 <= i < |all| && all[i].deniedPaths.Some? && x in all[i].deniedPaths.value
  {
    if all != [] {
      DeniedAre(all[..|all| - 1], x);
      assert all == all[..|all| - 1] + [all[|all| - 1]];
    }
  }

  /** A limit is the smallest of the hard one and every given one. */
  lemma {:induction false} SmallestIs(name: LimitName, all: Grants)
    ensures Smallest(name, all) <= HardLimit(name)
    ensures forall g :: g in all && name in g.limits ==> Smallest(name, all) <= g.limits[name]
    ensures Smallest(name, all) == HardLimit(name) || exists g :: g in all && name in g.limits && Smallest(name, all) == g.limits[name]
  {
    if all != [] {
      SmallestIs(name, all[..|all| - 1]);
      assert all == all[..|all| - 1] + [all[|all| - 1]];
      assert all[|all| - 1] in all;
    }
  }

  lemma ListsAmong(few: Grants, many: Grants)
    requires Among(few, many)
    ensures forall l :: l in PathLists(few) ==> l in PathLists(many)
    ensures forall l :: l in ExtensionLists(few) ==> l in ExtensionLists(many)
    ensures forall x :: x in AllDenied(few) ==> x in AllDenied(many)
  {
    forall l | l in PathLists(few)
      ensures l in PathLists(many)
    {
      PathListsAre(few, l);
      PathListsAre(many, l);
      var i :| 0 <= i < |few| && few[i].allowedPaths == Some(l);
      assert few[i] in many;
    }
    forall l | l in ExtensionLists(few)
      ensures l in ExtensionLists(many)
    {
      ExtensionListsAre(few, l);
      ExtensionListsAre(many, l);
      var i :| 0 <= i < |few| && few[i].allowedExtensions == Some(l);
      assert few[i] in many;
    }
    forall x | x in AllDenied(few)
      ensures x in AllDenied(many)
    {
      DeniedAre(few, x);
      DeniedAre(many, x);
      var i :| 0 <= i < |few| && few[i].deniedPaths.Some? && x in few[i].deniedPaths.value;
      assert few[i] in many;
    }
  }

  lemma LimitsAmong(few: Grants, many: Grants, name: LimitName)
    requires Among(few, many)
    ensures Smallest(name, many) <= Smallest(name, few)
  {
    SmallestIs(name, few);
    SmallestIs(name, many);
  }

  lemma LargerLimitsAccept(path: JsString, small: PathLimits, large: PathLimits, allowRoot: bool)
    requires small.maxPathBytes <= large.maxPathBytes && small.maxPathSegments <= large.maxPathSegments
    requires Normalizable(path, small, allowRoot)
    ensures Normalizable(path, large, allowRoot)
  {
  }

  /** Fewer lists classify no path worse. */
  lemma FewerListsClassify(path: JsString, few: Lists, many: Lists)
    requires few != [] && many != [] && forall l :: l in few ==> l in many
    ensures var f, m := Classify(path, Some(CombinePrefixes(few))), Classify(path, Some(CombinePrefixes(many)));
            (m.Inside? ==> f.Inside?) && (!m.Denied? ==> !f.Denied?)
  {
    var cm, cf := CombinePrefixes(many), CombinePrefixes(few);
    CombinedDenotes(many, path);
    CombinedDenotes(few, path);
    if InsideSome(path, cm) {
      InsideAllSame(path, many, few);
    } else if exists i :: 0 <= i < |cm| && CanContain(path, cm[i]) {
      var i :| 0 <= i < |cm| && CanContain(path, cm[i]);
      assert cm[i] in cm;
      CombinedMembers(many, cm[i]);
      InsideAllSame(cm[i], many, few);
      FewerListsKeepAnAncestor(cm[i], few);
      var k :| 0 <= k < |cf| && Matches(cm[i], cf[k]);
      if path != [] {
        MatchesComparable(cm[i], path, cf[k]);
        assert Matches(path, cf[k]) || CanContain(path, cf[k]);
      } else {
        assert CanContain(path, cf[k]);
      }
    }
  }

  lemma FewerListsStayNonEmpty(few: Lists, many: Lists)
    requires few != [] && many != [] && forall l :: l in few ==> l in many
    requires CombinePrefixes(many) != []
    ensures CombinePrefixes(few) != []
  {
    var m := CombinePrefixes(many)[0];
    CombinedMembers(many, m);
    InsideAllSame(m, many, few);
    FewerListsKeepAnAncestor(m, few);
  }

  lemma FewerExtensions(few: Lists, many: Lists)
    requires few != [] && many != [] && forall l :: l in few ==> l in many
    ensures forall x :: x in CombineExact(many) ==> x in CombineExact(few)
  {
    CombinedExactMembers(few);
    CombinedExactMembers(many);
    forall x | x in CombineExact(many)
      ensures x in CombineExact(few)
    {
      forall i | 0 <= i < |few|
        ensures x in few[i]
      {
        assert few[i] in many;
        var j :| 0 <= j < |many| && many[j] == few[i];
      }
    }
  }

  lemma FewerGrantsClassify(path: JsString, few: Grants, many: Grants)
    requires Among(few, many)
    ensures var f := Classify(path, if PathLists(few) == [] then None else Some(CombinePrefixes(PathLists(few))));
            var m := Classify(path, if PathLists(many) == [] then None else Some(CombinePrefixes(PathLists(many))));
            (m.Inside? ==> f.Inside?) && (!m.Denied? ==> !f.Denied?)
  {
    hide CombinePrefixes, PathLists;
    ListsAmong(few, many);
    if PathLists(few) != [] {
      assert PathLists(few)[0] in PathLists(many);
      FewerListsClassify(path, PathLists(few), PathLists(many));
    }
  }

  lemma DeniedAmong(path: JsString, few: Grants, many: Grants)
    requires Among(few, many)
    ensures InsideSome(path, SortedSet(AllDenied(few))) ==> InsideSome(path, SortedSet(AllDenied(many)))
  {
    hide SortedSet, InsideSome;
    ListsAmong(few, many);
    SortedSetProperties(AllDenied(few));
    SortedSetProperties(AllDenied(many));
    InsideMore(path, SortedSet(AllDenied(few)), SortedSet(AllDenied(many)));
  }

  /** A path that gives no reason against it under many grants gives none under few. */
  lemma FewerReasons(op: Operation, path: JsString, resource: Constraints, few: Grants, many: Grants)
    requires Among(few, many) && PathReasons(op, path, Combine(resource, many)) == []
    ensures PathReasons(op, path, Combine(resource, few)) == []
  {
    hide Classify, InsideSome, Normalizable, CombinePrefixes, CombineExact, SortedSet, Smallest, PathLists, AllDenied, ExtensionLists;
    var af, am := [resource] + few, [resource] + many;
    assert Among(af, am);
    LimitsAmong(af, am, MaxPathBytes);
    LimitsAmong(af, am, MaxPathSegments);
    LargerLimitsAccept(path, LimitsOf(Combine(resource, many)), LimitsOf(Combine(resource, few)), DirectoryCapable(op));
    FewerGrantsClassify(path, af, am);
    DeniedAmong(path, af, am);
  }

  lemma InsideMore(path: JsString, few: seq<JsString>, many: seq<JsString>)
    requires forall x :: x in few ==> x in many
    ensures InsideSome(path, few) ==> InsideSome(path, many)
  {
    if InsideSome(path, few) {
      var i :| 0 <= i < |few| && Matches(path, few[i]);
      assert few[i] in many;
      var j :| 0 <= j < |many| && many[j] == few[i];
    }
  }

  /** Adding a grant never widens: what is accepted under some grants is accepted under any
      selection of them. */
  lemma GrantsOnlyNarrow(op: Operation, paths: seq<JsString>, resource: Constraints, few: Grants, many: Grants)
    requires Among(few, many) && Acceptable(op, paths, Combine(resource, many))
    ensures Acceptable(op, paths, Combine(resource, few))
  {
    var af, am := [resource] + few, [resource] + many;
    var ef, em := Combine(resource, few), Combine(resource, many);
    assert Among(af, am);
    ListsAmong(af, am);
    if PathLists(af) != [] {
      assert PathLists(af)[0] in PathLists(am);
      FewerListsStayNonEmpty(PathLists(af), PathLists(am));
    }
    if ExtensionLists(af) != [] {
      assert ExtensionLists(af)[0] in ExtensionLists(am);
      FewerExtensions(ExtensionLists(af), ExtensionLists(am));
      assert em.allowedExtensions.value[0] in em.allowedExtensions.value;
    }
    forall i | 0 <= i < |paths|
      ensures PathReasons(op, paths[i], ef) == []
    {
      FewerReasons(op, paths[i], resource, few, many);
    }
    if Mutates(op) {
      forall i | 0 <= i < |few|
        ensures few[i].allowMutation == Some(true)
      {
        assert few[i] in many;
        var j :| 0 <= j < |many| && many[j] == few[i];
      }
    }
  }

  lemma {:induction false} ParseAllIs(raw: Grants)
    ensures ParseAll(raw).Some? <==> forall g :: g in raw ==> Parse(g).Some?
    ensures ParseAll(raw).Some? ==> forall p :: p in ParseAll(raw).value <==> exists g :: g in raw && Parse(g) == Some(p)
  {
    hide Parse;
    if raw != [] {
      var front, last := raw[..|raw| - 1], raw[|raw| - 1];
      ParseAllIs(front);
      assert raw == front + [last];
      if ParseAll(raw).Some? {
        assert ParseAll(raw).value == ParseAll(front).value + [Parse(last).value];
      }
    }
  }

  lemma ParsedAmong(few: Grants, many: Grants)
    requires Among(few, many) && ParseAll(many).Some?
    ensures ParseAll(few).Some? && Among(ParseAll(few).value, ParseAll(many).value)
  {
    hide Parse, ParseAll;
    ParseAllIs(few);
    ParseAllIs(many);
  }

  /** What the handler answers "ok" to. */
  predicate Accepts(op: Operation, arguments: Arguments, values: Grants, configuration: Constraints) {
    && Parse(configuration).Some? && ParseAll(values).Some?
    && Acceptable(op, OperationPaths(op, arguments), Combine(Parse(configuration).value, ParseAll(values).value))
  }

  /** A request the handler accepts with some grants it accepts with any selection of them,
      none included. */
  lemma AcceptanceOnlyNarrows(op: Operation, arguments: Arguments, few: Grants, many: Grants, configuration: Constraints)
    requires Accepts(op, arguments, many, configuration) && Among(few, many)
    ensures Accepts(op, arguments, few, configuration)
  {
    hide Parse, ParseAll, Acceptable, Combine, Among;
    ParsedAmong(few, many);
    GrantsOnlyNarrow(op, OperationPaths(op, arguments), Parse(configuration).value, ParseAll(few).value, ParseAll(many).value);
  }

  predicate SortedLists(g: Constraints) {
    && (g.allowedPaths.Some? ==> StrictlySorted(g.allowedPaths.value))
    && (g.allowedExtensions.Some? ==> StrictlySorted(g.allowedExtensions.value))
  }

  lemma ParsedAreSorted(raw: Constraints)
    requires Parse(raw).Some?
    ensures SortedLists(Parse(raw).value)
  {
    if raw.allowedPaths.Some? { SortedSetProperties(raw.allowedPaths.value); }
    if raw.allowedExtensions.Some? { SortedSetProperties(LowerAll(raw.allowedExtensions.value)); }
  }

  ghost predicate SameGrants(a: Grants, b: Grants) { Among(a, b) && Among(b, a) }

  lemma PathsIgnoreOrder(a: Grants, b: Grants)
    requires SameGrants(a, b) && forall g :: g in a ==> SortedLists(g)
    ensures PathLists(a) == [] <==> PathLists(b) == []
    ensures PathLists(a) != [] ==> CombinePrefixes(PathLists(a)) == CombinePrefixes(PathLists(b))
  {
    ListsAmong(a, b);
    ListsAmong(b, a);
    forall l | l in PathLists(a)
      ensures StrictlySorted(l)
    {
      PathListsAre(a, l);
      var i :| 0 <= i < |a| && a[i].allowedPaths == Some(l);
      assert SortedLists(a[i]);
    }
    assert PathLists(a) != [] ==> PathLists(a)[0] in PathLists(b);
    assert PathLists(b) != [] ==> PathLists(b)[0] in PathLists(a);
    if PathLists(a) != [] { CombinedIgnoresOrder(PathLists(a), PathLists(b)); }
  }

  lemma ExtensionsIgnoreOrder(a: Grants, b: Grants)
    requires SameGrants(a, b) && forall g :: g in a ==> SortedLists(g)
    ensures ExtensionLists(a) == [] <==> ExtensionLists(b) == []
    ensures ExtensionLists(a) != [] ==> CombineExact(ExtensionLists(a)) == CombineExact(ExtensionLists(b))
  {
    ListsAmong(a, b);
    ListsAmong(b, a);
    forall l | l in ExtensionLists(a)
      ensures StrictlySorted(l)
    {
      ExtensionListsAre(a, l);
      var i :| 0 <= i < |a| && a[i].allowedExtensions == Some(l);
      assert SortedLists(a[i]);
    }
    assert ExtensionLists(a) != [] ==> ExtensionLists(a)[0] in ExtensionLists(b);
    assert ExtensionLists(b) != [] ==> ExtensionLists(b)[0] in ExtensionLists(a);
    if ExtensionLists(a) != [] { CombinedExactIgnoresOrder(ExtensionLists(a), ExtensionLists(b)); }
  }

  lemma DeniedIgnoresOrder(a: Grants, b: Grants)
    requires SameGrants(a, b)
    ensures SortedSet(AllDenied(a)) == SortedSet(AllDenied(b))
  {
    ListsAmong(a, b);
    ListsAmong(b, a);
    SortedSetProperties(AllDenied(a));
    SortedSetProperties(AllDenied(b));
    StrictlySortedUnique(SortedSet(AllDenied(a)), SortedSet(AllDenied(b)));
  }

  lemma LimitsIgnoreOrder(a: Grants, b: Grants)
    requires SameGrants(a, b)
    ensures forall name :: Smallest(name, a) == Smallest(name, b)
  {
    forall name
      ensures Smallest(name, a) == Smallest(name, b)
    {
      LimitsAmong(a, b, name);
      LimitsAmong(b, a, name);
    }
  }

  /** The effective constraints are the same whatever the order or repetition of grants. */
  lemma CombineIgnoresOrder(resource: Constraints, a: Grants, b: Grants)
    requires SortedLists(resource) && forall g :: g in a ==> SortedLists(g)
    requires SameGrants(a, b)
    ensures Combine(resource, a) == Combine(resource, b)
  {
    hide PathLists, ExtensionLists, AllDenied, CombinePrefixes, CombineExact, SortedSet, SortedLists, Smallest;
    var ra, rb := [resource] + a, [resource] + b;
    assert SameGrants(ra, rb);
    PathsIgnoreOrder(ra, rb);
    ExtensionsIgnoreOrder(ra, rb);
    DeniedIgnoresOrder(ra, rb);
    LimitsIgnoreOrder(ra, rb);
    MutationIgnoresOrder(a, b);
  }

  lemma ParsedGrantsAreSorted(raw: Grants)
    requires ParseAll(raw).Some?
    ensures forall p :: p in ParseAll(raw).value ==> SortedLists(p)
  {
    hide Parse, ParseAll, SortedLists;
    ParseAllIs(raw);
    forall p | p in ParseAll(raw).value
      ensures SortedLists(p)
    {
      var g :| g in raw && Parse(g) == Some(p);
      ParsedAreSorted(g);
    }
  }

  /** The handler's whole answer, effective constraints and reasons included, is the same whatever
      the order or repetition of the grants it is given. */
  lemma AnswerIgnoresOrder(op: Operation, arguments: Arguments, a: Grants, b: Grants, configuration: Constraints)
    requires SameGrants(a, b)
    ensures Answer(op, arguments, a, configuration) == Answer(op, arguments, b, configuration)
  {
    hide Parse, ParseAll, Combine, Among, OpeningReasons, AllPathReasons, ClosingReasons, SortedLists;
    if ParseAll(a).Some? {
      ParsedAmong(b, a);
      if Parse(configuration).Some? {
        ParsedAmong(a, b);
        ParsedAreSorted(configuration);
        ParsedGrantsAreSorted(a);
        CombineIgnoresOrder(Parse(configuration).value, ParseAll(a).value, ParseAll(b).value);
      }
    } else if ParseAll(b).Some? {
      ParsedAmong(a, b);
    }
  }

  lemma MutationIgnoresOrder(a: Grants, b: Grants)
    requires Among(a, b) && Among(b, a)
    ensures (forall i :: 0 <= i < |a| ==> a[i].allowMutation == Some(true)) <==>
            (forall i :: 0 <= i < |b| ==> b[i].allowMutation == Some(true))
  {
    assert (forall i :: 0 <= i < |a| ==> a[i].allowMutation == Some(true)) <==> (forall g :: g in a ==> g.allowMutation == Some(true));
    assert (forall i :: 0 <= i < |b| ==> b[i].allowMutation == Some(true)) <==> (forall g :: g in b ==> g.allowMutation == Some(true));
  }
}
