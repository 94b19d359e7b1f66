/** What an installed copy of a skill must become, which changes that takes, and why the
    changes can stop anywhere without stranding the next run. */
module SkillInstallPlans {
  import opened Options
  import opened JsStrings
  import opened Utf
  import opened FilesystemPaths
  import opened FilesystemVisibility

  datatype Place = Regular(bytes: seq<Byte>) | Folder | Irregular

  /** An installed copy, keyed by path below its root. */
  type Copy = map<Path, Place>

  type Hash = seq<Byte>

  datatype Manifest = Manifest(skill: JsString, version: Option<JsString>, files: map<Path, Hash>)

  /** How manifests are written down and read back. */
  datatype Format = Format(render: Manifest -> seq<Byte>, read: seq<Byte> -> Option<Manifest>)

  /** The canonical skill: its files, and their names in listing order. */
  datatype Source = Source(skill: JsString, version: Option<JsString>, names: seq<Path>, files: map<Path, seq<Byte>>)

  datatype Kind = CreateFile | UpdateFile | DeleteFile

  datatype Change = Change(kind: Kind, path: Path)

  const MANIFEST: Path := [Js(".skill-install.json")]

  // ----- content identity

  predicate IsText(bytes: seq<Byte>) { 0 !in bytes && ValidUtf8(bytes) }

  function UnixLines(bytes: seq<Byte>): seq<Byte> {
    if bytes == [] then []
    else if |bytes| >= 2 && bytes[0] == 0x0D && bytes[1] == 0x0A then [0x0A] + UnixLines(bytes[2..])
    else [bytes[0]] + UnixLines(bytes[1..])
  }

  /** What is hashed: text with its line endings made uniform, anything else as it is. */
  function ContentHash(bytes: seq<Byte>): Hash { if IsText(bytes) then UnixLines(bytes) else bytes }

  /** The format keeps the manifest, and writes plain line feeds. */
  ghost predicate Faithful(f: Format) {
    && (forall m :: f.read(f.render(m)) == Some(m))
    && (forall m :: UnixLines(f.render(m)) == f.render(m))
    && (forall b, m :: UnixLines(b) == f.render(m) ==> f.read(b) == Some(m))
  }

  // ----- shapes of trees

  predicate IgnoredName(segment: Segment) { segment in {Js(".DS_Store"), Js("Thumbs.db")} }

  predicate Ignored(p: Path) { exists i :: 0 <= i < |p| && IgnoredName(p[i]) }

  ghost predicate Grown(u: Copy) {
    && ([] in u ==> u[[]].Folder?)
    && forall p :: p in u && p != [] ==> Parent(p) in u && u[Parent(p)].Folder?
  }

  predicate Above(q: Path, p: Path) { q <= p }

  predicate Desired(s: Source, p: Path) { p in s.files || p == MANIFEST }

  /** A source is a tree of files without ignored names or a manifest of its own. */
  ghost predicate SourceTree(s: Source) {
    && MANIFEST !in s.files
    && (forall p :: p in s.names <==> p in s.files)
    && (forall i, j :: 0 <= i < j < |s.names| ==> s.names[i] != s.names[j])
    && (forall p :: p in s.files ==> !Ignored(p))
    && (forall p, q :: Desired(s, p) && Desired(s, q) && Above(p, q) ==> p == q)
  }

  // ----- the plan

  predicate IsContent(u: Copy, p: Path) { p in u && u[p].Regular? && !Ignored(p) && p != MANIFEST }

  predicate HasManifest(u: Copy) { MANIFEST in u && u[MANIFEST].Regular? }

  function ManifestOf(u: Copy, f: Format): Option<Manifest> {
    if HasManifest(u) then f.read(u[MANIFEST].bytes) else None
  }

  function Wanted(s: Source): Manifest {
    Manifest(s.skill, s.version, map p | p in s.files :: ContentHash(s.files[p]))
  }

  predicate InSync(u: Copy, s: Source, p: Path)
    requires IsContent(u, p)
  {
    p in s.files && ContentHash(u[p].bytes) == ContentHash(s.files[p])
  }

  predicate ManifestInSync(u: Copy, s: Source, f: Format)
    requires HasManifest(u)
  {
    UnixLines(u[MANIFEST].bytes) == f.render(Wanted(s))
  }

  /** The changes that bring the copy in line with the source. */
  predicate Wants(u: Copy, s: Source, f: Format, c: Change) {
    match c.kind
    case CreateFile => if c.path == MANIFEST then !HasManifest(u) else c.path in s.files && !IsContent(u, c.path)
    case UpdateFile =>
      if c.path == MANIFEST then HasManifest(u) && !ManifestInSync(u, s, f)
      else IsContent(u, c.path) && c.path in s.files && !InSync(u, s, c.path)
    case DeleteFile => IsContent(u, c.path) && c.path !in s.files
  }

  function Adapting(s: Source, p: Path): Change { Change(if p in s.files then UpdateFile else DeleteFile, p) }

  /** A content file wants no change, or just the one. */
  lemma OneWanted(u: Copy, s: Source, f: Format, p: Path)
    requires IsContent(u, p)
    ensures forall c: Change :: c.path == p ==> (Wants(u, s, f, c) <==> !InSync(u, s, p) && c == Adapting(s, p))
  {
  }

  ghost predicate HasContent(u: Copy) { exists p :: IsContent(u, p) }

  ghost predicate Unmanaged(u: Copy, s: Source, f: Format) {
    HasContent(u) && (ManifestOf(u, f).None? || ManifestOf(u, f).value.skill != s.skill)
  }

  ghost predicate Identical(u: Copy, s: Source) { forall p :: IsContent(u, p) ==> InSync(u, s, p) }

  ghost function Recorded(u: Copy, s: Source, f: Format): map<Path, Hash> {
    if Unmanaged(u, s, f) || ManifestOf(u, f).None? then map[] else ManifestOf(u, f).value.files
  }

  predicate Owned(unmanaged: bool, recorded: map<Path, Hash>, s: Source, p: Path) { p in recorded || (unmanaged && p in s.files) }

  predicate Modified(recorded: map<Path, Hash>, bytes: seq<Byte>, p: Path) {
    p !in recorded || recorded[p] != ContentHash(bytes)
  }

  ghost predicate NoSpecial(u: Copy) { forall p :: p in u && u[p].Irregular? ==> Ignored(p) }

  /** Nothing stands where a desired file or one of its directories must go. */
  ghost predicate Unobstructed(u: Copy, s: Source) {
    forall p, q :: Desired(s, p) && Above(q, p) && q in u ==> if q == p then u[q].Regular? else u[q].Folder?
  }

  ghost predicate FileAllowed(u: Copy, s: Source, f: Format, force: bool, p: Path)
    requires IsContent(u, p)
  {
    || InSync(u, s, p)
    || (&& Owned(Unmanaged(u, s, f), Recorded(u, s, f), s, p)
        && (force || !Modified(Recorded(u, s, f), u[p].bytes, p)))
  }

  /** The planner reports no conflict. */
  ghost predicate NoConflict(u: Copy, s: Source, f: Format, force: bool) {
    && NoSpecial(u) && Unobstructed(u, s)
    && (Unmanaged(u, s, f) ==> force || Identical(u, s))
    && forall p :: IsContent(u, p) ==> FileAllowed(u, s, f, force, p)
  }

  // ----- applying one change

  predicate IsEmptyFolder(u: Copy, d: Path) { d in u && u[d].Folder? && forall q :: q in u && Above(d, q) ==> q == d }

  function WithFolders(u: Copy, d: Path): Copy
    decreases |d|
  {
    var v := if d == [] then u else WithFolders(u, Parent(d));
    if d in v then v else v[d := Folder]
  }

  function WithoutEmptyParents(u: Copy, p: Path): Copy
    decreases |p|
  {
    if |p| <= 1 || !IsEmptyFolder(u, Parent(p)) then u else WithoutEmptyParents(u - {Parent(p)}, Parent(p))
  }

  function ContentFor(s: Source, f: Format, p: Path): seq<Byte>
    requires Desired(s, p)
  {
    if p == MANIFEST then f.render(Wanted(s)) else s.files[p]
  }

  predicate Applicable(s: Source, c: Change) { c.path != [] && (c.kind.DeleteFile? || Desired(s, c.path)) }

  function Applied(u: Copy, s: Source, f: Format, c: Change): Copy
    requires Applicable(s, c)
  {
    if c.kind.DeleteFile? then WithoutEmptyParents(u - {c.path}, c.path)
    else WithFolders(u, Parent(c.path))[c.path := Regular(ContentFor(s, f, c.path))]
  }

  lemma AboveSelf(d: Path)
    ensures Above(d, d)
  {
  }

  lemma AboveParent(q: Path, d: Path)
    requires d != [] && Above(q, Parent(d))
    ensures Above(q, d) && q != d
  {
  }

  lemma GrownWith(u: Copy, p: Path, place: Place)
    requires Grown(u) && (p != [] ==> Parent(p) in u && u[Parent(p)].Folder?) && (p == [] ==> place.Folder?)
    requires p in u && u[p].Folder? ==> place.Folder?
    ensures Grown(u[p := place])
  {
  }

  lemma GrownWithout(u: Copy, p: Path)
    requires Grown(u) && forall q :: q in u && Above(p, q) ==> q == p
    ensures Grown(u - {p})
  {
    forall q | q in u - {p} && q != []
      ensures Parent(q) in u - {p} && u[Parent(q)].Folder?
    {
      if Parent(q) == p { assert Above(p, q); }
    }
  }

  lemma {:induction false} FoldersAdded(u: Copy, d: Path)
    requires Grown(u) && forall q :: Above(q, d) && q in u ==> u[q].Folder?
    ensures var v := WithFolders(u, d);
            && Grown(v) && d in v && v[d].Folder?
            && (forall q :: q in u ==> q in v && v[q] == u[q])
            && (forall q :: q in v && q !in u ==> Above(q, d) && v[q].Folder?)
    decreases |d|
  {
    hide Grown, Above;
    AboveSelf(d);
    if d == [] {
      if [] !in u { GrownWith(u, [], Folder); }
    } else {
      forall q | Above(q, Parent(d))
        ensures Above(q, d)
      {
        AboveParent(q, d);
      }
      FoldersAdded(u, Parent(d));
      var w := WithFolders(u, Parent(d));
      if d !in w { GrownWith(w, d, Folder); }
    }
  }

  lemma {:induction false} ParentsRemoved(u: Copy, p: Path)
    requires Grown(u)
    ensures var v := WithoutEmptyParents(u, p);
            && Grown(v)
            && (forall q :: q in v ==> q in u && v[q] == u[q])
            && (forall q :: q in u && !u[q].Folder? ==> q in v)
    decreases |p|
  {
    hide Grown, Above;
    if |p| > 1 && IsEmptyFolder(u, Parent(p)) {
      GrownWithout(u, Parent(p));
      ParentsRemoved(u - {Parent(p)}, Parent(p));
    }
  }

  // ----- what one change leaves alone

  /** Apart from folders, `q` is as it was. */
  ghost predicate SameLeaf(u: Copy, v: Copy, q: Path) {
    if q in u && !u[q].Folder? then q in v && v[q] == u[q] else q !in v || v[q].Folder?
  }

  ghost predicate Effect(u: Copy, v: Copy, s: Source, f: Format, c: Change) {
    && Grown(v)
    && (forall q :: q != c.path ==> SameLeaf(u, v, q))
    && (if c.kind.DeleteFile? then c.path !in v
        else Desired(s, c.path) && c.path in v && v[c.path] == Regular(ContentFor(s, f, c.path)))
    && (forall q :: q in v && v[q].Folder? ==> (q in u && u[q].Folder?) || (Desired(s, c.path) && Above(q, c.path)))
  }

  lemma WantedPath(u: Copy, s: Source, f: Format, c: Change)
    requires Grown(u) && SourceTree(s) && Wants(u, s, f, c)
    ensures Applicable(s, c)
    ensures c.kind.DeleteFile? ==> c.path in u && u[c.path].Regular? && c.path != MANIFEST
  {
    if c.path == [] && !c.kind.DeleteFile? { assert Above([], MANIFEST); }
  }

  lemma LeavesAfterWrite(u: Copy, w: Copy, v: Copy, p: Path, place: Place)
    requires v == w[p := place]
    requires forall q :: q in u ==> q in w && w[q] == u[q]
    requires forall q :: q in w && q !in u ==> w[q].Folder?
    ensures forall q :: q != p ==> SameLeaf(u, v, q)
  {
  }

  lemma LeavesAfterDelete(u: Copy, v: Copy, p: Path)
    requires forall q :: q in v ==> q in u && q != p && v[q] == u[q]
    requires forall q :: q in u && q != p && !u[q].Folder? ==> q in v
    ensures forall q :: q != p ==> SameLeaf(u, v, q)
  {
  }

  lemma WrittenEffect(u: Copy, s: Source, f: Format, c: Change)
    requires Grown(u) && Unobstructed(u, s) && c.path != [] && Desired(s, c.path) && !c.kind.DeleteFile?
    ensures Effect(u, Applied(u, s, f, c), s, f, c)
  {
    hide Grown, ContentFor, Above, Desired, WithFolders, SameLeaf;
    var d := Parent(c.path);
    AboveSelf(c.path);
    forall q | Above(q, d)
      ensures Above(q, c.path) && q != c.path
    {
      AboveParent(q, c.path);
    }
    FoldersAdded(u, d);
    var w := WithFolders(u, d);
    GrownWith(w, c.path, Regular(ContentFor(s, f, c.path)));
    LeavesAfterWrite(u, w, Applied(u, s, f, c), c.path, Regular(ContentFor(s, f, c.path)));
  }

  lemma DeletedEffect(u: Copy, s: Source, f: Format, c: Change)
    requires Grown(u) && c.kind.DeleteFile? && c.path in u && u[c.path].Regular? && c.path != []
    ensures Effect(u, Applied(u, s, f, c), s, f, c)
  {
    hide Grown, ContentFor, Above, Desired, WithoutEmptyParents, SameLeaf;
    LeafHasNothingBelow(u, c.path);
    GrownWithout(u, c.path);
    ParentsRemoved(u - {c.path}, c.path);
    LeavesAfterDelete(u, Applied(u, s, f, c), c.path);
  }

  lemma {:induction false} LeafHasNothingBelow(u: Copy, p: Path)
    requires Grown(u) && p in u && !u[p].Folder?
    ensures forall q :: q in u && Above(p, q) ==> q == p
  {
    forall q | q in u && Above(p, q)
      ensures q == p
    {
      if q != p { AboveIsFolder(u, q, p); }
    }
  }

  lemma {:induction false} AboveIsFolder(u: Copy, q: Path, p: Path)
    requires Grown(u) && q in u && Above(p, q) && p != q
    ensures p in u && u[p].Folder?
    decreases |q|
  {
    hide Grown, Above;
    StrictlyAbove(p, q);
    GrownParent(u, q);
    if Parent(q) != p { AboveIsFolder(u, Parent(q), p); }
  }

  lemma StrictlyAbove(p: Path, q: Path)
    requires Above(p, q) && p != q
    ensures q != [] && Above(p, Parent(q))
  {
    assert |p| < |q|;
  }

  lemma GrownParent(u: Copy, q: Path)
    requires Grown(u) && q in u && q != []
    ensures Parent(q) in u && u[Parent(q)].Folder?
  {
  }

  lemma ChangeEffect(u: Copy, s: Source, f: Format, c: Change)
    requires Grown(u) && SourceTree(s) && Unobstructed(u, s) && Wants(u, s, f, c)
    ensures Applicable(s, c) && Effect(u, Applied(u, s, f, c), s, f, c)
  {
    WantedPath(u, s, f, c);
    if c.kind.DeleteFile? { DeletedEffect(u, s, f, c); } else { WrittenEffect(u, s, f, c); }
  }

  lemma StaysUnobstructed(u: Copy, v: Copy, s: Source, f: Format, c: Change)
    requires SourceTree(s) && Unobstructed(u, s) && Effect(u, v, s, f, c)
    ensures Unobstructed(v, s)
  {
    forall p, q | Desired(s, p) && Above(q, p) && q in v
      ensures if q == p then v[q].Regular? else v[q].Folder?
    {
      if q == c.path {
      } else if v[q].Folder? {
      } else {
        assert SameLeaf(u, v, q);
      }
    }
  }

  lemma ContentAfter(u: Copy, v: Copy, s: Source, f: Format, c: Change)
    requires SourceTree(s) && Effect(u, v, s, f, c)
    ensures forall q :: q != c.path ==> (IsContent(v, q) <==> IsContent(u, q)) && (IsContent(u, q) ==> v[q] == u[q])
    ensures IsContent(v, c.path) <==> !c.kind.DeleteFile? && c.path != MANIFEST
    ensures IsContent(v, c.path) ==> InSync(v, s, c.path)
    ensures c.path != MANIFEST ==> (HasManifest(v) <==> HasManifest(u)) && (HasManifest(u) ==> v[MANIFEST] == u[MANIFEST])
  {
    hide Grown, Above, Ignored;
    forall q | q != c.path
      ensures (IsContent(v, q) <==> IsContent(u, q)) && (IsContent(u, q) ==> v[q] == u[q])
    {
      assert SameLeaf(u, v, q);
    }
    assert c.path != MANIFEST ==> SameLeaf(u, v, MANIFEST);
  }

  lemma SpecialsAfter(u: Copy, v: Copy, s: Source, f: Format, c: Change)
    requires Effect(u, v, s, f, c) && NoSpecial(u)
    ensures NoSpecial(v)
  {
    forall q | q in v && v[q].Irregular?
      ensures Ignored(q)
    {
      assert SameLeaf(u, v, q);
    }
  }

  /** One change of a conflict-free plan, the manifest excepted: no conflict arises, and what
      remains to be done is exactly the rest of the plan. */
  lemma OneChangeFewer(u: Copy, s: Source, f: Format, force: bool, c: Change)
    requires Grown(u) && SourceTree(s) && NoConflict(u, s, f, force) && Wants(u, s, f, c) && c.path != MANIFEST
    ensures Applicable(s, c)
    ensures var v := Applied(u, s, f, c);
            && Grown(v) && NoConflict(v, s, f, force)
            && forall d :: Wants(v, s, f, d) <==> Wants(u, s, f, d) && d != c
  {
    hide Grown, Applied, Above;
    ChangeEffect(u, s, f, c);
    var v := Applied(u, s, f, c);
    StaysUnobstructed(u, v, s, f, c);
    ContentAfter(u, v, s, f, c);
    SpecialsAfter(u, v, s, f, c);
    StaysAllowed(u, v, s, f, force, c);
    RestRemains(u, v, s, f, c);
  }

  lemma RestRemains(u: Copy, v: Copy, s: Source, f: Format, c: Change)
    requires SourceTree(s) && Effect(u, v, s, f, c) && Wants(u, s, f, c) && c.path != MANIFEST
    ensures forall d :: Wants(v, s, f, d) <==> Wants(u, s, f, d) && d != c
  {
    hide Grown, Above, Ignored, SourceTree, ContentHash, ContentFor, Effect, SameLeaf, IsContent;
    ContentAfter(u, v, s, f, c);
  }

  lemma StaysAllowed(u: Copy, v: Copy, s: Source, f: Format, force: bool, c: Change)
    requires SourceTree(s) && Effect(u, v, s, f, c) && NoConflict(u, s, f, force) && Wants(u, s, f, c) && c.path != MANIFEST
    ensures Unmanaged(v, s, f) ==> force || Identical(v, s)
    ensures forall p :: IsContent(v, p) ==> FileAllowed(v, s, f, force, p)
  {
    hide Grown, Above, Ignored, SourceTree, ContentHash, ContentFor, Effect, SameLeaf, IsContent, NoSpecial, Unobstructed;
    ContentAfter(u, v, s, f, c);
    assert ManifestOf(u, f) == ManifestOf(v, f);
    forall p | IsContent(v, p)
      ensures FileAllowed(v, s, f, force, p)
    {
      if p != c.path {
        assert IsContent(u, p) && FileAllowed(u, s, f, force, p);
        assert HasContent(u) && HasContent(v);
      }
    }
  }

  // ----- the manifest comes last

  lemma ManifestSettles(u: Copy, s: Source, f: Format, force: bool, c: Change)
    requires Grown(u) && SourceTree(s) && Faithful(f) && NoConflict(u, s, f, force) && Wants(u, s, f, c) && c.path == MANIFEST
    requires forall d :: Wants(u, s, f, d) ==> d == c
    ensures !c.kind.DeleteFile? && Applicable(s, c)
    ensures var v := Applied(u, s, f, c);
            Grown(v) && NoConflict(v, s, f, force) && forall d :: !Wants(v, s, f, d)
  {
    hide Grown, Applied, Above, Ignored, ContentHash, SameLeaf;
    ChangeEffect(u, s, f, c);
    var v := Applied(u, s, f, c);
    StaysUnobstructed(u, v, s, f, c);
    ContentAfter(u, v, s, f, c);
    SpecialsAfter(u, v, s, f, c);
    forall p | IsContent(u, p)
      ensures InSync(u, s, p)
    {
      assert !Wants(u, s, f, Change(UpdateFile, p)) && !Wants(u, s, f, Change(DeleteFile, p));
    }
    assert ManifestInSync(v, s, f) && ManifestOf(v, f) == Some(Wanted(s));
    forall d
      ensures !Wants(v, s, f, d)
    {
      assert !Wants(u, s, f, d) || d == c;
    }
  }

  // ----- whole plans

  /** The plan names each wanted change once. */
  ghost predicate Lists(plan: seq<Change>, u: Copy, s: Source, f: Format) {
    && (forall c :: c in plan <==> Wants(u, s, f, c))
    && (forall i, j :: 0 <= i < j < |plan| ==> plan[i] != plan[j])
  }

  ghost predicate ManifestLast(plan: seq<Change>) {
    forall i :: 0 <= i < |plan| && plan[i].path == MANIFEST ==> i == |plan| - 1
  }

  ghost predicate AllApplicable(s: Source, plan: seq<Change>) { forall c :: c in plan ==> Applicable(s, c) }

  ghost function AppliedAll(u: Copy, s: Source, f: Format, plan: seq<Change>): Copy
    requires AllApplicable(s, plan)
    decreases |plan|
  {
    if plan == [] then u
    else
      assert plan[0] in plan;
      assert forall c :: c in plan[1..] ==> c in plan;
      AppliedAll(Applied(u, s, f, plan[0]), s, f, plan[1..])
  }

  lemma PlanIsApplicable(plan: seq<Change>, u: Copy, s: Source, f: Format)
    requires Grown(u) && SourceTree(s) && Lists(plan, u, s, f)
    ensures AllApplicable(s, plan)
  {
    hide Grown, SourceTree, Wants;
    forall c | c in plan
      ensures Applicable(s, c)
    {
      WantedPath(u, s, f, c);
    }
  }

  lemma FirstChange(u: Copy, s: Source, f: Format, force: bool, plan: seq<Change>)
    requires Grown(u) && SourceTree(s) && Faithful(f) && NoConflict(u, s, f, force)
    requires plan != [] && Lists(plan, u, s, f) && ManifestLast(plan)
    ensures Applicable(s, plan[0])
    ensures var v := Applied(u, s, f, plan[0]);
            Grown(v) && NoConflict(v, s, f, force) && Lists(plan[1..], v, s, f) && ManifestLast(plan[1..])
  {
    hide Grown, SourceTree, Faithful, NoConflict, Wants, Applied, Applicable;
    var c := plan[0];
    assert c in plan;
    assert plan == [c] + plan[1..];
    assert forall d :: d in plan <==> d == c || d in plan[1..];
    assert c !in plan[1..] by { assert forall j :: 0 <= j < |plan[1..]| ==> plan[1..][j] == plan[j + 1]; }
    if c.path == MANIFEST {
      ManifestSettles(u, s, f, force, c);
    } else {
      OneChangeFewer(u, s, f, force, c);
    }
  }

  lemma FrontOfPlan(plan: seq<Change>, k: nat)
    requires 0 < k <= |plan|
    ensures plan[..k][0] == plan[0] && plan[..k][1..] == plan[1..][..k - 1] && plan[1..][k - 1..] == plan[k..]
    ensures forall c :: c in plan[..k] <==> c == plan[0] || c in plan[1..][..k - 1]
  {
    assert plan[..k] == [plan[0]] + plan[1..][..k - 1];
  }

  /** Stopped after any number of changes, a conflict-free install leaves a copy that plans
      without conflict, and whose plan is the rest of the changes. */
  lemma {:induction false} StoppedAnywhere(u: Copy, s: Source, f: Format, force: bool, plan: seq<Change>, k: nat)
    requires Grown(u) && SourceTree(s) && Faithful(f) && NoConflict(u, s, f, force)
    requires Lists(plan, u, s, f) && ManifestLast(plan) && k <= |plan|
    ensures AllApplicable(s, plan[..k])
    ensures var v := AppliedAll(u, s, f, plan[..k]);
            Grown(v) && NoConflict(v, s, f, force) && Lists(plan[k..], v, s, f) && ManifestLast(plan[k..])
    decreases k
  {
    hide Grown, SourceTree, Faithful, NoConflict, Wants, Applied, Applicable, Lists, ManifestLast;
    if k == 0 {
      assert plan[..0] == [] && plan[0..] == plan;
    } else {
      FirstChange(u, s, f, force, plan);
      var v := Applied(u, s, f, plan[0]);
      StoppedAnywhere(v, s, f, force, plan[1..], k - 1);
      FrontOfPlan(plan, k);
    }
  }

  /** The copy is the canonical skill, up to line endings, with its manifest. */
  ghost predicate Installed(u: Copy, s: Source, f: Format) {
    && (forall p :: IsContent(u, p) <==> p in s.files)
    && (forall p :: IsContent(u, p) ==> ContentHash(u[p].bytes) == ContentHash(s.files[p]))
    && ManifestOf(u, f) == Some(Wanted(s))
  }

  lemma NothingWantedIsInstalled(u: Copy, s: Source, f: Format)
    requires SourceTree(s) && Faithful(f) && Lists([], u, s, f)
    ensures Installed(u, s, f)
  {
    assert !Wants(u, s, f, Change(CreateFile, MANIFEST)) && !Wants(u, s, f, Change(UpdateFile, MANIFEST));
    forall p
      ensures IsContent(u, p) <==> p in s.files
      ensures IsContent(u, p) ==> ContentHash(u[p].bytes) == ContentHash(s.files[p])
    {
      assert !Wants(u, s, f, Change(CreateFile, p)) && !Wants(u, s, f, Change(UpdateFile, p)) && !Wants(u, s, f, Change(DeleteFile, p));
    }
  }

  /** Interrupt after any number of changes and run again with the same source and flags: no
      conflict, and the second run ends in an installed copy that wants nothing more. */
  lemma InterruptedInstallConverges(u: Copy, s: Source, f: Format, force: bool, plan: seq<Change>, k: nat, again: seq<Change>)
    requires Grown(u) && SourceTree(s) && Faithful(f) && NoConflict(u, s, f, force)
    requires Lists(plan, u, s, f) && ManifestLast(plan) && k <= |plan| && AllApplicable(s, plan[..k])
    requires Lists(again, AppliedAll(u, s, f, plan[..k]), s, f) && ManifestLast(again)
    ensures NoConflict(AppliedAll(u, s, f, plan[..k]), s, f, force) && AllApplicable(s, again)
    ensures var w := AppliedAll(AppliedAll(u, s, f, plan[..k]), s, f, again);
            NoConflict(w, s, f, force) && Lists([], w, s, f) && Installed(w, s, f)
  {
    hide Grown, SourceTree, Faithful, NoConflict, Applied, Applicable, Lists, ManifestLast, Installed, AppliedAll;
    StoppedAnywhere(u, s, f, force, plan, k);
    var v := AppliedAll(u, s, f, plan[..k]);
    PlanIsApplicable(again, v, s, f);
    StoppedAnywhere(v, s, f, force, again, |again|);
    assert again[..|again|] == again && again[|again|..] == [];
    NothingWantedIsInstalled(AppliedAll(v, s, f, again), s, f);
  }

  // ----- whose files are touched

  /** Without `force` only a file that still is what the installer recorded is overwritten or
      removed; with it, only a recorded or canonical path. */
  lemma OnlyOwnFilesChange(u: Copy, s: Source, f: Format, force: bool, c: Change)
    requires SourceTree(s) && NoConflict(u, s, f, force) && Wants(u, s, f, c) && IsContent(u, c.path)
    ensures c.path in Recorded(u, s, f) || (force && c.path in s.files)
    ensures c.kind.DeleteFile? ==> c.path in Recorded(u, s, f)
    ensures !force ==> c.path in Recorded(u, s, f) && Recorded(u, s, f)[c.path] == ContentHash(u[c.path].bytes)
  {
    assert FileAllowed(u, s, f, force, c.path);
    assert !InSync(u, s, c.path);
  }

  lemma {:induction false} OthersStay(u: Copy, s: Source, f: Format, force: bool, plan: seq<Change>, k: nat, q: Path)
    requires Grown(u) && SourceTree(s) && Faithful(f) && NoConflict(u, s, f, force)
    requires Lists(plan, u, s, f) && ManifestLast(plan) && k <= |plan| && AllApplicable(s, plan[..k])
    requires forall c :: c in plan ==> c.path != q
    ensures SameLeaf(u, AppliedAll(u, s, f, plan[..k]), q)
    decreases k
  {
    hide Grown, SourceTree, Faithful, Wants, Applied, Applicable, ManifestLast;
    if k > 0 {
      assert plan[0] in plan;
      FirstChange(u, s, f, force, plan);
      ChangeEffect(u, s, f, plan[0]);
      var v := Applied(u, s, f, plan[0]);
      FrontOfPlan(plan, k);
      assert forall c :: c in plan[1..] ==> c in plan;
      OthersStay(v, s, f, force, plan[1..], k - 1, q);
      assert SameLeaf(u, v, q);
    }
  }

  /** Why the manifest comes last: written first, it would vouch for content that is not there
      yet, and a run stopped at that point would end in a conflict. */
  lemma ManifestFirstStrands(u: Copy, s: Source, f: Format, m: Change, c: Change)
    requires Grown(u) && SourceTree(s) && Faithful(f) && NoConflict(u, s, f, false)
    requires Wants(u, s, f, m) && m.path == MANIFEST && Applicable(s, m)
    requires Wants(u, s, f, c) && c.kind.UpdateFile? && c.path != MANIFEST
    ensures !NoConflict(Applied(u, s, f, m), s, f, false)
  {
    hide Grown, Applied, Above, Ignored, ContentHash, SameLeaf;
    ChangeEffect(u, s, f, m);
    var v := Applied(u, s, f, m);
    ContentAfter(u, v, s, f, m);
    assert ManifestOf(v, f) == Some(Wanted(s));
    assert IsContent(v, c.path) && !InSync(v, s, c.path);
    assert Recorded(v, s, f) == Wanted(s).files;
    assert !FileAllowed(v, s, f, false, c.path);
  }
}
