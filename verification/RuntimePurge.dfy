/** Purging a runtime home: the plan fingerprints what it will remove and orders it so that
    every directory comes after everything beneath it. */
module RuntimePurgePlans {
  import opened Options
  import opened JsStrings
  import opened Utf
  import opened FilesystemPaths
  import opened FilesystemVisibility

  datatype Identity = Identity(device: nat, inode: nat, mode: nat, mtime: nat)

  datatype Entry =
    | Regular(id: Identity, bytes: seq<Byte>)
    | Socket(id: Identity, size: nat)
    | SymbolicLink(id: Identity, size: nat, target: JsString)
    | Folder(id: Identity)
    | Unsupported

  type Home = map<Path, Entry>

  datatype Kind = FileKind | SocketKind | LinkKind | FolderKind

  /** What is hashed; for a folder, nothing that changes when its children go. */
  datatype Fingerprint =
    | OfFile(id: Identity, bytes: seq<Byte>)
    | OfSocket(id: Identity)
    | OfLink(id: Identity, target: JsString)
    | OfFolder(device: nat, inode: nat, mode: nat)

  datatype Artifact = Artifact(path: Path, kind: Kind, size: nat, fingerprint: Fingerprint)

  function FingerprintAt(p: Path, e: Entry): Option<Artifact> {
    match e
    case Regular(id, bytes) => Some(Artifact(p, FileKind, |bytes|, OfFile(id, bytes)))
    case Socket(id, size) => Some(Artifact(p, SocketKind, size, OfSocket(id)))
    case SymbolicLink(id, size, target) => Some(Artifact(p, LinkKind, size, OfLink(id, target)))
    case Folder(id) => Some(Artifact(p, FolderKind, 0, OfFolder(id.device, id.inode, id.mode)))
    case Unsupported => None
  }

  ghost predicate Rooted(h: Home) {
    && [] in h && h[[]].Folder?
    && forall p :: p in h && p != [] ==> Segmented(p) && Parent(p) in h && h[Parent(p)].Folder?
  }

  const REMOVAL_ORDER: seq<JsString> := [
    Js("daemon.sock"), Js("drafts"), Js("generated"),
    Js("index.sqlite-shm"), Js("index.sqlite-wal"), Js("index.sqlite-journal"), Js("index.sqlite"),
    Js("project.sqlite-shm"), Js("project.sqlite-wal"), Js("project.sqlite-journal"), Js("project.sqlite")]

  /** The names a runtime home is known to hold, each with its kind. */
  function ExpectedKind(name: JsString): Option<Kind> {
    if name == Js("daemon.sock") then Some(SocketKind)
    else if name in {Js("drafts"), Js("generated")} then Some(FolderKind)
    else if name in REMOVAL_ORDER then Some(FileKind)
    else None
  }

  function IndexIn(name: JsString, list: seq<JsString>): nat {
    if list == [] || list[0] == name then 0 else 1 + IndexIn(name, list[1..])
  }

  function Rank(p: Path): nat
    requires p != []
  {
    IndexIn(p[0], REMOVAL_ORDER)
  }

  // ----- the removal order

  predicate Precedes(a: Path, b: Path)
    requires a != [] && b != []
  {
    || Rank(a) < Rank(b)
    || (Rank(a) == Rank(b) && (|a| > |b| || (|a| == |b| && !Less(Join(b), Join(a)))))
  }

  lemma PrecedesTotal(a: Path, b: Path)
    requires a != [] && b != []
    ensures Precedes(a, b) || Precedes(b, a)
  {
    hide Join, Rank;
    if Less(Join(b), Join(a)) && Less(Join(a), Join(b)) {
      LessTransitive(Join(a), Join(b), Join(a));
      LessIrreflexive(Join(a));
    }
  }

  lemma PrecedesTransitive(a: Path, b: Path, c: Path)
    requires a != [] && b != [] && c != [] && Precedes(a, b) && Precedes(b, c)
    ensures Precedes(a, c)
  {
    hide Join, Rank;
    if Rank(a) == Rank(b) == Rank(c) && |a| == |b| == |c| && Less(Join(c), Join(a)) {
      LessTotal(Join(a), Join(b));
      if Join(a) != Join(b) { LessTransitive(Join(c), Join(a), Join(b)); }
    }
  }

  predicate Placed(list: seq<Artifact>) { forall i :: 0 <= i < |list| ==> list[i].path != [] }

  predicate Ordered(list: seq<Artifact>) {
    Placed(list) && forall i, j :: 0 <= i < j < |list| ==> Precedes(list[i].path, list[j].path)
  }

  function Insert(x: Artifact, list: seq<Artifact>): seq<Artifact>
    requires x.path != [] && Placed(list)
  {
    if list == [] || Precedes(x.path, list[0].path) then [x] + list else [list[0]] + Insert(x, list[1..])
  }

  function InRemovalOrder(list: seq<Artifact>): (r: seq<Artifact>)
    requires Placed(list)
    ensures Placed(r) && multiset(r) == multiset(list)
  {
    if list == [] then []
    else
      InsertKeeps(list[0], InRemovalOrder(list[1..]));
      assert list == [list[0]] + list[1..];
      Insert(list[0], InRemovalOrder(list[1..]))
  }

  lemma {:induction false} InsertKeeps(x: Artifact, list: seq<Artifact>)
    requires x.path != [] && Placed(list)
    ensures Placed(Insert(x, list)) && multiset(Insert(x, list)) == multiset([x] + list)
  {
    hide Precedes;
    if list != [] && !Precedes(x.path, list[0].path) {
      InsertKeeps(x, list[1..]);
      assert list == [list[0]] + list[1..];
    }
  }

  lemma {:induction false} InsertOrders(x: Artifact, list: seq<Artifact>)
    requires x.path != [] && Ordered(list)
    ensures Placed(Insert(x, list)) && Ordered(Insert(x, list))
  {
    hide Precedes;
    InsertKeeps(x, list);
    if list != [] && !Precedes(x.path, list[0].path) {
      InsertOrders(x, list[1..]);
      PrecedesTotal(x.path, list[0].path);
      InsertedFollow(list[0], x, list[1..]);
    } else if list != [] {
      forall j | 0 < j < |list|
        ensures Precedes(x.path, list[j].path)
      {
        PrecedesTransitive(x.path, list[0].path, list[j].path);
      }
    }
  }

  lemma InsertedFollow(first: Artifact, x: Artifact, list: seq<Artifact>)
    requires first.path != [] && x.path != [] && Placed(list)
    requires Precedes(first.path, x.path) && forall j :: 0 <= j < |list| ==> Precedes(first.path, list[j].path)
    ensures Placed(Insert(x, list))
    ensures forall j :: 0 <= j < |Insert(x, list)| ==> Precedes(first.path, Insert(x, list)[j].path)
  {
    hide Precedes, Insert;
    InsertKeeps(x, list);
    var rest := Insert(x, list);
    forall j | 0 <= j < |rest|
      ensures Precedes(first.path, rest[j].path)
    {
      assert rest[j] in multiset(rest);
      assert rest[j] in [x] + list;
    }
  }

  lemma {:induction false} RemovalOrderOrders(list: seq<Artifact>)
    requires Placed(list)
    ensures Ordered(InRemovalOrder(list))
  {
    if list != [] {
      RemovalOrderOrders(list[1..]);
      InsertOrders(list[0], InRemovalOrder(list[1..]));
    }
  }

  /** Nothing in the plan lies beneath something earlier in it. */
  lemma DescendantsFirst(list: seq<Artifact>, i: nat, j: nat)
    requires Ordered(list) && i < j < |list|
    ensures !(list[i].path < list[j].path)
  {
    assert Precedes(list[i].path, list[j].path);
  }

  // ----- what is planned

  /** Beneath a known name that has the kind it should have. */
  predicate Planned(h: Home, p: Path) {
    && p != [] && p in h && ExpectedKind(p[0]).Some? && [p[0]] in h
    && FingerprintAt([p[0]], h[[p[0]]]).Some? && FingerprintAt([p[0]], h[[p[0]]]).value.kind == ExpectedKind(p[0]).value
  }

  /** Something the planner cannot fingerprint stands where it looks. */
  ghost predicate Unplannable(h: Home) { exists p :: p in h && UnplannableAt(h, p) }

  predicate UnplannableAt(h: Home, p: Path)
    requires p in h
  {
    p != [] && h[p].Unsupported? && ExpectedKind(p[0]).Some? && (|p| == 1 || Planned(h, p))
  }

  /** The plan holds an up-to-date artifact for every planned path, once, in removal order. */
  ghost predicate PlanFor(h: Home, plan: seq<Artifact>) {
    && (forall a :: a in plan ==> Planned(h, a.path) && FingerprintAt(a.path, h[a.path]) == Some(a))
    && (forall p :: Planned(h, p) ==> exists a :: a in plan && a.path == p)
    && (forall i, j :: 0 <= i < j < |plan| ==> plan[i].path != plan[j].path)
    && Ordered(plan)
  }
}

/** Planning over a runtime home and applying a plan to it, call by call. */
module RuntimePurges {
  import opened Options
  import opened JsStrings
  import opened FilesystemPaths
  import opened FilesystemVisibility
  import opened RuntimePurgePlans

  datatype Fault = UnsupportedEntry(path: Path) | ChangedAfterPlanning(path: Path) | NotRemovable(path: Path) | HomeChanged

  datatype Draft = Draft(artifacts: seq<Artifact>, preserved: set<Path>, home: Fingerprint)

  ghost function Region(h: Home, p: Path): set<Path> { set q | q in h && p <= q }

  ghost function Paths(list: seq<Artifact>): set<Path> { set a | a in list :: a.path }

  ghost predicate Distinct(list: seq<Artifact>) { forall i, j :: 0 <= i < j < |list| ==> list[i].path != list[j].path }

  ghost predicate UpToDate(h: Home, list: seq<Artifact>) {
    forall a :: a in list ==> a.path in h && FingerprintAt(a.path, h[a.path]) == Some(a)
  }

  function Children(h: Home, p: Path): set<Path> { set q | q in h && q != [] && Parent(q) == p }

  lemma PathsJoin(a: seq<Artifact>, b: seq<Artifact>)
    ensures Paths(a + b) == Paths(a) + Paths(b)
  {
    assert forall x :: x in a + b <==> x in a || x in b;
  }

  lemma DistinctJoin(a: seq<Artifact>, b: seq<Artifact>)
    requires Distinct(a) && Distinct(b) && Paths(a) !! Paths(b)
    ensures Distinct(a + b)
  {
    assert forall i :: 0 <= i < |a| ==> a[i] in a && a[i].path in Paths(a);
    assert forall i :: 0 <= i < |b| ==> b[i] in b && b[i].path in Paths(b);
  }

  lemma {:induction false} BelowSomeChild(h: Home, p: Path, q: Path)
    requires Rooted(h) && q in h && p < q
    ensures q[..|p| + 1] in Children(h, p) && q[..|p| + 1] <= q
    decreases |q|
  {
    if |q| == |p| + 1 {
      assert q[..|p| + 1] == q && Parent(q) == p;
    } else {
      BelowSomeChild(h, p, Parent(q));
      assert Parent(q)[..|p| + 1] == q[..|p| + 1];
    }
  }

  ghost function Covered(h: Home, tops: set<Path>): set<Path> { set q | q in h && exists c :: c in tops && c <= q }

  /** A region is its top and the regions of the children. */
  lemma RegionSplits(h: Home, p: Path)
    requires Rooted(h) && p in h
    ensures Region(h, p) == Covered(h, Children(h, p)) + {p} && p !in Covered(h, Children(h, p))
  {
    forall q | q in Region(h, p) && q != p
      ensures q in Covered(h, Children(h, p))
    {
      BelowSomeChild(h, p, q);
    }
    forall c | c in Children(h, p)
      ensures p <= c && p != c
    {
    }
  }

  lemma ChildRegionIsSmaller(h: Home, p: Path, c: Path)
    requires p in h && c in Children(h, p)
    ensures c in h && |Region(h, c)| < |Region(h, p)|
    ensures forall q :: q in Region(h, c) ==> p <= q
  {
    assert p <= c && p !in Region(h, c) && p in Region(h, p);
    SmallerSet(Region(h, c), Region(h, p));
  }

  lemma SmallerSet<T>(a: set<T>, b: set<T>)
    requires a < b
    ensures |a| < |b|
  {
    assert b == a + (b - a);
    assert |b - a| > 0;
  }

  /** Different children have nothing in common beneath them. */
  lemma SiblingsAreApart(h: Home, p: Path, done: set<Path>, c: Path)
    requires done <= Children(h, p) && c in Children(h, p) - done
    ensures Covered(h, done) !! Region(h, c)
    ensures Covered(h, done + {c}) == Covered(h, done) + Region(h, c)
  {
    forall q | q in Covered(h, done)
      ensures q !in Region(h, c)
    {
      var d :| d in done && d <= q;
      if c <= q { SameTop(c, d, q); }
    }
  }

  lemma SameTop(c: Path, d: Path, q: Path)
    requires |c| == |d| && c <= q && d <= q
    ensures c == d
  {
    assert c == q[..|c|] && d == q[..|d|];
  }

  /** What has been fingerprinted so far: every path beneath the tops in `done`, once each. */
  ghost predicate Listed(h: Home, list: seq<Artifact>, done: set<Path>) {
    UpToDate(h, list) && Distinct(list) && Paths(list) == Covered(h, done)
  }

  lemma ListedJoin(h: Home, p: Path, list: seq<Artifact>, done: set<Path>, c: Path, below: seq<Artifact>)
    requires done <= Children(h, p) && c in Children(h, p) - done && Listed(h, list, done)
    requires UpToDate(h, below) && Distinct(below) && Paths(below) == Region(h, c)
    ensures Listed(h, list + below, done + {c})
  {
    hide Covered, Region;
    SiblingsAreApart(h, p, done, c);
    PathsJoin(list, below);
    DistinctJoin(list, below);
  }

  lemma ListedTop(h: Home, p: Path, list: seq<Artifact>, own: Artifact)
    requires Rooted(h) && p in h && Listed(h, list, Children(h, p)) && FingerprintAt(p, h[p]) == Some(own)
    ensures UpToDate(h, list + [own]) && Paths(list + [own]) == Region(h, p) && Distinct(list + [own])
  {
    hide Covered, Region, Rooted;
    assert own.path == p;
    RegionSplits(h, p);
    assert Paths([own]) == {p};
    PathsJoin(list, [own]);
    DistinctJoin(list, [own]);
  }

  class RuntimeHome {
    var nodes: Home
    var clock: nat

    constructor (nodes: Home)
      ensures this.nodes == nodes
    {
      this.nodes, clock := nodes, 0;
    }

    /** Everything at and beneath a path, children before the directory that holds them. */
    method FingerprintTree(p: Path) returns (r: Result<seq<Artifact>, Fault>)
      requires Rooted(nodes) && p in nodes
      ensures r.Ok? ==> UpToDate(nodes, r.value) && Paths(r.value) == Region(nodes, p) && Distinct(r.value)
      ensures r.Err? ==> exists q :: q in nodes && p <= q && nodes[q].Unsupported?
      decreases |Region(nodes, p)|
    {
      hide Rooted, FingerprintAt, Listed, Region, Children, Covered, UpToDate, Distinct, Paths;
      var own := FingerprintAt(p, nodes[p]);
      if own.None? {
        UnsupportedOnly(p);
        return Err(UnsupportedEntry(p));
      }
      var list: seq<Artifact> := [];
      var rest := Children(nodes, p);
      ghost var all := rest;
      NothingListed(nodes);
      assert all - rest == {};
      while rest != {}
        invariant rest <= all && Listed(nodes, list, all - rest)
        decreases |rest|
      {
        var c: Path :| c in rest;
        ChildRegionIsSmaller(nodes, p, c);
        var below := FingerprintTree(c);
        if below.Err? {
          ghost var q :| q in nodes && c <= q && nodes[q].Unsupported?;
          InRegion(nodes, c, q);
          return Err(below.error);
        }
        ListedJoin(nodes, p, list, all - rest, c, below.value);
        assert all - rest + {c} == all - (rest - {c});
        list := list + below.value;
        rest := rest - {c};
      }
      assert all - rest == all;
      ListedTop(nodes, p, list, own.value);
      return Ok(list + [own.value]);
    }

    lemma UnsupportedOnly(p: Path)
      requires p in nodes && FingerprintAt(p, nodes[p]).None?
      ensures nodes[p].Unsupported?
    {
    }

    /** One top-level entry: what it adds to the plan, or `None` when it is preserved. */
    method PlanEntry(top: Path) returns (r: Result<Option<seq<Artifact>>, Fault>)
      requires Rooted(nodes) && top in Children(nodes, [])
      ensures r.Err? ==> Unplannable(nodes)
      ensures r.Ok? ==> PlannableBelow(nodes, top)
      ensures r.Ok? ==> (r.value.Some? <==> Planned(nodes, top))
      ensures r.Ok? && r.value.Some? ==>
                UpToDate(nodes, r.value.value) && Paths(r.value.value) == Region(nodes, top) && Distinct(r.value.value)
    {
      hide Rooted, Region;
      assert top == [top[0]];
      var expected := ExpectedKind(top[0]);
      if expected.None? {
        return Ok(None);
      }
      var found := FingerprintAt(top, nodes[top]);
      if found.None? {
        assert UnplannableAt(nodes, top);
        return Err(UnsupportedEntry(top));
      }
      if found.value.kind != expected.value {
        forall q | q in nodes && top <= q
          ensures !UnplannableAt(nodes, q)
        {
          assert [q[0]] == top && (|q| == 1 ==> q == top);
        }
        return Ok(None);
      }
      if !found.value.kind.FolderKind? {
        LeafRegion(nodes, top);
        assert Paths([found.value]) == {top};
        FingerprintedIsPlannable(nodes, top, [found.value]);
        return Ok(Some([found.value]));
      }
      var tree := FingerprintTree(top);
      if tree.Err? {
        ghost var q :| q in nodes && top <= q && nodes[q].Unsupported?;
        assert UnplannableAt(nodes, q);
        return Err(tree.error);
      }
      FingerprintedIsPlannable(nodes, top, tree.value);
      return Ok(Some(tree.value));
    }

    method Plan() returns (r: Result<Draft, Fault>)
      requires Rooted(nodes)
      ensures r.Err? <==> Unplannable(nodes)
      ensures r.Ok? ==>
                && PlanFor(nodes, r.value.artifacts)
                && r.value.preserved == (set p | p in Children(nodes, []) && !Planned(nodes, p))
                && Some(r.value.home) == HomeFingerprint(nodes)
    {
      hide Rooted, Listed, Covered, Planned, PlanFor, Unplannable, FingerprintAt, Children, Ordered, HomeFingerprint, AfterRemoving, PlannableBelow;
      var list: seq<Artifact> := [];
      var preserved: set<Path> := {};
      var rest := Children(nodes, []);
      ghost var all := rest;
      ghost var done: set<Path> := {};
      NothingListed(nodes);
      HomeIsFolder(nodes);
      while rest != {}
        invariant rest <= all && Listed(nodes, list, done)
        invariant done == set p | p in all - rest && Planned(nodes, p)
        invariant preserved == set p | p in all - rest && !Planned(nodes, p)
        invariant forall top :: top in all - rest ==> PlannableBelow(nodes, top)
        decreases |rest|
      {
        var top: Path :| top in rest;
        var entry := PlanEntry(top);
        if entry.Err? {
          return Err(entry.error);
        }
        if entry.value.Some? {
          ListedJoin(nodes, [], list, done, top, entry.value.value);
          list := list + entry.value.value;
          done := done + {top};
        } else {
          preserved := preserved + {top};
        }
        rest := rest - {top};
      }
      assert all - rest == all;
      OrderedPlan(nodes, list, done);
      NothingUnplannable(nodes);
      return Ok(Draft(InRemovalOrder(list), preserved, HomeFingerprint(nodes).value));
    }

    /** Removes one artifact if it still is what was planned. */
    method RemoveArtifact(a: Artifact) returns (fault: Option<Fault>)
      requires Rooted(nodes) && a.path != []
      modifies this
      ensures Rooted(nodes)
      ensures fault.Some? ==> nodes == old(nodes) && !fault.value.HomeChanged?
      ensures fault.None? ==>
                && a.path in old(nodes) && FingerprintAt(a.path, old(nodes)[a.path]) == Some(a)
                && AfterRemoving(old(nodes), nodes, {a.path})
      ensures (a.path in old(nodes) && FingerprintAt(a.path, old(nodes)[a.path]) == Some(a)
               && Children(old(nodes), a.path) == {}) ==> fault.None?
    {
      if a.path !in nodes || FingerprintAt(a.path, nodes[a.path]) != Some(a) {
        return Some(ChangedAfterPlanning(a.path));
      }
      if a.kind.FolderKind? && Children(nodes, a.path) != {} {
        return Some(NotRemovable(a.path));
      }
      var parent := Parent(a.path);
      clock := clock + 1;
      LeafHasNoChildren(nodes, a.path);
      RemovalKeepsHome(nodes, a.path, clock);
      nodes := (nodes - {a.path})[parent := Folder(nodes[parent].id.(mtime := clock))];
      return None;
    }

    /** Removes the planned artifacts in order and stops at the first that has changed. */
    method RemoveAll(plan: seq<Artifact>) returns (removed: seq<Path>, fault: Option<Fault>)
      requires Rooted(nodes) && Placed(plan)
      modifies this
      ensures Rooted(nodes) && (fault.None? <==> |removed| == |plan|) && fault != Some(HomeChanged)
      ensures Removed(old(nodes), nodes, plan, removed)
      ensures PlanFor(old(nodes), plan) ==> fault.None?
    {
      hide Rooted, Removed, FingerprintAt, PlanFor, Children, AfterRemoving;
      removed := [];
      NothingRemoved(nodes);
      while |removed| < |plan|
        invariant |removed| <= |plan| && Rooted(nodes) && Removed(old(nodes), nodes, plan, removed)
        decreases |plan| - |removed|
      {
        var a := plan[|removed|];
        ghost var before := nodes;
        if PlanFor(old(nodes), plan) { NextIsRemovable(old(nodes), nodes, plan, removed); }
        fault := RemoveArtifact(a);
        if fault.Some? {
          return;
        }
        RemovalsAdd(old(nodes), before, nodes, plan, removed);
        removed := removed + [a.path];
      }
      fault := None;
    }

    /** The whole call: in the end an empty home goes too if it still is the planned one. */
    method Apply(draft: Draft) returns (removed: seq<Path>, fault: Option<Fault>, homeRemoved: bool)
      requires Rooted(nodes) && Placed(draft.artifacts)
      modifies this
      ensures var emptied := |removed| == |draft.artifacts| && old(nodes).Keys == {[]} + set p | p in removed;
              && (homeRemoved <==> emptied && Some(draft.home) == HomeFingerprint(old(nodes)))
              && (fault == Some(HomeChanged) <==> emptied && Some(draft.home) != HomeFingerprint(old(nodes)))
      ensures fault.None? || fault == Some(HomeChanged) <==> |removed| == |draft.artifacts|
      ensures homeRemoved ==> nodes == map[] && fault.None?
      ensures !homeRemoved ==> Rooted(nodes) && Removed(old(nodes), nodes, draft.artifacts, removed)
      ensures PlanFor(old(nodes), draft.artifacts) && Some(draft.home) == HomeFingerprint(old(nodes)) ==> fault.None?
    {
      hide Rooted, Removed, FingerprintAt, PlanFor, HomeFingerprint;
      homeRemoved := false;
      removed, fault := RemoveAll(draft.artifacts);
      if fault.Some? {
        return;
      }
      HomeIsEmptied(old(nodes), nodes, draft.artifacts, removed);
      if nodes.Keys == {[]} {
        if HomeFingerprint(nodes) != Some(draft.home) {
          fault := Some(HomeChanged);
          return;
        }
        nodes := map[];
        homeRemoved := true;
      }
    }
  }

  function HomeFingerprint(h: Home): Option<Fingerprint> {
    if [] in h && FingerprintAt([], h[[]]).Some? then Some(FingerprintAt([], h[[]]).value.fingerprint) else None
  }

  lemma InRegion(h: Home, c: Path, q: Path)
    requires q in h && c <= q
    ensures q in Region(h, c)
  {
  }

  lemma NothingListed(h: Home)
    ensures Listed(h, [], {})
  {
  }

  lemma LeafHasNoChildren(h: Home, p: Path)
    requires Rooted(h) && p in h && (h[p].Folder? ==> Children(h, p) == {})
    ensures forall q :: q in h && q != [] ==> Parent(q) != p
  {
    forall q | q in h && q != [] && Parent(q) == p
      ensures q in Children(h, p)
    {
    }
  }

  lemma LeafRegion(h: Home, p: Path)
    requires Rooted(h) && p in h && !h[p].Folder?
    ensures Region(h, p) == {p}
  {
    forall q | q in Region(h, p)
      ensures q == p
    {
      if q != p { BelowSomeChild(h, p, q); }
    }
  }

  // ----- the plan

  lemma {:induction false} DistinctCounts(list: seq<Artifact>, a: Artifact)
    requires Distinct(list)
    ensures multiset(list)[a] <= 1
  {
    if list != [] {
      assert list == [list[0]] + list[1..];
      DistinctCounts(list[1..], a);
      if a == list[0] { assert a !in list[1..]; }
    }
  }

  lemma PermutationStaysDistinct(h: Home, list: seq<Artifact>, r: seq<Artifact>)
    requires UpToDate(h, list) && Distinct(list) && multiset(r) == multiset(list)
    ensures UpToDate(h, r) && Distinct(r) && Paths(r) == Paths(list)
  {
    hide FingerprintAt;
    assert forall a :: a in r <==> a in multiset(r);
    assert forall a :: a in list <==> a in multiset(list);
    forall a
      ensures multiset(r)[a] <= 1
    {
      DistinctCounts(list, a);
    }
    assert forall i :: 0 <= i < |r| ==> r[i] in r;
    DistinctFromCounts(r);
  }

  lemma DistinctFromCounts(r: seq<Artifact>)
    requires forall a :: multiset(r)[a] <= 1
    requires forall i, j :: 0 <= i < |r| && 0 <= j < |r| && r[i].path == r[j].path ==> r[i] == r[j]
    ensures Distinct(r)
  {
    forall i, j | 0 <= i < j < |r|
      ensures r[i].path != r[j].path
    {
      if r[i].path == r[j].path { TwoPositions(r, i, j); }
    }
  }

  lemma TopOf(h: Home, p: Path)
    requires Rooted(h) && p in h && p != []
    ensures [p[0]] <= p && [p[0]] in Children(h, [])
  {
    BelowSomeChild(h, [], p);
    assert p[..1] == [p[0]];
  }

  lemma PlannedIsCovered(h: Home, done: set<Path>, p: Path)
    requires Rooted(h) && done == set p | p in Children(h, []) && Planned(h, p)
    ensures Planned(h, p) <==> p in Covered(h, done)
  {
    hide FingerprintAt, Rooted, ExpectedKind;
    if Planned(h, p) {
      TopOf(h, p);
      assert Planned(h, [p[0]]);
      assert [p[0]] in done && [p[0]] <= p;
    }
    if p in Covered(h, done) {
      var c :| c in done && c <= p;
      assert |c| == 1 && c == [p[0]];
    }
  }

  lemma OrderedPlan(h: Home, list: seq<Artifact>, done: set<Path>)
    requires Rooted(h) && Listed(h, list, done) && done == set p | p in Children(h, []) && Planned(h, p)
    ensures Placed(list) && PlanFor(h, InRemovalOrder(list))
  {
    hide FingerprintAt, Rooted, Covered, Children, Planned, PlanFor, Distinct, UpToDate;
    forall p
      ensures Planned(h, p) <==> p in Paths(list)
    {
      PlannedIsCovered(h, done, p);
    }
    ListIsPlan(h, list);
  }

  /** An up-to-date list of exactly the planned paths, put in removal order, is the plan. */
  lemma ListIsPlan(h: Home, list: seq<Artifact>)
    requires UpToDate(h, list) && Distinct(list) && forall p :: Planned(h, p) <==> p in Paths(list)
    ensures Placed(list) && PlanFor(h, InRemovalOrder(list))
  {
    hide FingerprintAt, Ordered, Planned, InRemovalOrder;
    PathsAreListed(list);
    ListedIsPlaced(h, list);
    var r := InRemovalOrder(list);
    RemovalOrderOrders(list);
    PermutationStaysDistinct(h, list, r);
    PathsAreListed(r);
  }

  lemma PathsAreListed(list: seq<Artifact>)
    ensures forall a :: a in list ==> a.path in Paths(list)
    ensures forall p :: p in Paths(list) ==> exists a :: a in list && a.path == p
  {
  }

  lemma ListedIsPlaced(h: Home, list: seq<Artifact>)
    requires forall a :: a in list ==> Planned(h, a.path)
    ensures Placed(list)
  {
    assert forall i :: 0 <= i < |list| ==> list[i] in list;
  }

  // ----- the removals

  predicate SameButTime(a: Entry, b: Entry) {
    if a.Folder? then b.Folder? && b.id == a.id.(mtime := b.id.mtime) else a == b
  }

  /** `gone` has been removed and nothing else has changed but the times of folders. */
  ghost predicate AfterRemoving(before: Home, after: Home, gone: set<Path>) {
    && after.Keys == before.Keys - gone
    && forall p :: p in after ==> SameButTime(before[p], after[p])
  }

  lemma SameFingerprint(p: Path, a: Entry, b: Entry)
    requires SameButTime(a, b)
    ensures FingerprintAt(p, a) == FingerprintAt(p, b)
  {
  }

  /** The first artifacts of the plan, each as it was planned, are gone, and nothing else is. */
  ghost predicate Removed(start: Home, now: Home, plan: seq<Artifact>, removed: seq<Path>) {
    && |removed| <= |plan| && AfterRemoving(start, now, set p | p in removed)
    && forall k :: 0 <= k < |removed| ==>
                     removed[k] == plan[k].path && removed[k] in start && FingerprintAt(removed[k], start[removed[k]]) == Some(plan[k])
  }

  /** Nothing at or beneath `top` stops the planner. */
  ghost predicate PlannableBelow(h: Home, top: Path) { forall q :: q in h && top <= q ==> !UnplannableAt(h, q) }

  lemma FingerprintedIsPlannable(h: Home, top: Path, list: seq<Artifact>)
    requires UpToDate(h, list) && Paths(list) == Region(h, top)
    ensures PlannableBelow(h, top)
  {
    forall q | q in h && top <= q
      ensures !UnplannableAt(h, q)
    {
      assert q in Paths(list);
    }
  }

  lemma NothingUnplannable(h: Home)
    requires Rooted(h) && forall top :: top in Children(h, []) ==> PlannableBelow(h, top)
    ensures !Unplannable(h)
  {
    forall q | q in h
      ensures !UnplannableAt(h, q)
    {
      if q != [] { BelowSomeChild(h, [], q); }
    }
  }

  lemma NothingRemoved(h: Home)
    ensures forall plan :: Removed(h, h, plan, [])
  {
    assert forall p: Path :: p !in [];
  }

  lemma RemovalKeepsHome(h: Home, p: Path, time: nat)
    requires Rooted(h) && p in h && p != [] && forall q :: q in h && q != [] ==> Parent(q) != p
    ensures Parent(p) in h && h[Parent(p)].Folder?
    ensures var after := (h - {p})[Parent(p) := Folder(h[Parent(p)].id.(mtime := time))];
            Rooted(after) && AfterRemoving(h, after, {p})
  {
  }

  lemma RemovalsAdd(start: Home, before: Home, after: Home, plan: seq<Artifact>, removed: seq<Path>)
    requires |removed| < |plan| && Removed(start, before, plan, removed)
    requires var a := plan[|removed|];
             && AfterRemoving(before, after, {a.path})
             && a.path in before && FingerprintAt(a.path, before[a.path]) == Some(a)
    ensures Removed(start, after, plan, removed + [plan[|removed|].path])
  {
    hide FingerprintAt;
    var a := plan[|removed|];
    assert (set p | p in removed + [a.path]) == (set p | p in removed) + {a.path};
    SameFingerprint(a.path, start[a.path], before[a.path]);
  }

  /** In an unchanged home the next artifact is as planned, and nothing is left beneath it. */
  lemma NextIsRemovable(start: Home, now: Home, plan: seq<Artifact>, removed: seq<Path>)
    requires Rooted(start) && Rooted(now) && PlanFor(start, plan) && |removed| < |plan| && Removed(start, now, plan, removed)
    ensures var a := plan[|removed|];
            a.path in now && FingerprintAt(a.path, now[a.path]) == Some(a) && Children(now, a.path) == {}
  {
    hide FingerprintAt, Rooted, Ordered, Planned;
    var k := |removed|;
    var a := plan[k];
    assert a in plan;
    RemovedArePlanned(start, now, plan, removed);
    assert a.path in start by { hide PlanFor; PlannedIsThere(start, plan, a); }
    assert a.path in now;
    SameFingerprint(a.path, start[a.path], now[a.path]);
    forall q | q in Children(now, a.path)
      ensures false
    {
      NoChildIsLeft(start, now, plan, removed, q);
    }
  }

  lemma PlannedIsThere(h: Home, plan: seq<Artifact>, a: Artifact)
    requires PlanFor(h, plan) && a in plan
    ensures Planned(h, a.path) && a.path in h
  {
    hide FingerprintAt, Ordered;
  }

  /** What is gone is what stood in the plan before the next artifact. */
  lemma RemovedArePlanned(start: Home, now: Home, plan: seq<Artifact>, removed: seq<Path>)
    requires PlanFor(start, plan) && |removed| < |plan| && Removed(start, now, plan, removed)
    ensures forall j :: 0 <= j < |removed| ==> plan[j].path in removed
    ensures forall j :: |removed| <= j < |plan| ==> plan[j].path !in removed
  {
    hide FingerprintAt, Ordered, Planned, AfterRemoving;
    assert forall j :: 0 <= j < |removed| ==> plan[j].path == removed[j] && removed[j] in removed;
  }

  lemma NoChildIsLeft(start: Home, now: Home, plan: seq<Artifact>, removed: seq<Path>, q: Path)
    requires Rooted(start) && PlanFor(start, plan) && |removed| < |plan| && Removed(start, now, plan, removed)
    ensures q !in Children(now, plan[|removed|].path)
  {
    hide FingerprintAt, Rooted, Ordered, Planned;
    var k := |removed|;
    var a := plan[k];
    if q in Children(now, a.path) {
      PlannedIsThere(start, plan, a);
      RemovedArePlanned(start, now, plan, removed);
      ChildIsPlanned(start, a.path, q);
      var b :| b in plan && b.path == q;
      var j :| 0 <= j < |plan| && plan[j] == b;
      if j > k { DescendantsFirst(plan, k, j); }
    }
  }

  lemma ChildIsPlanned(h: Home, p: Path, q: Path)
    requires Planned(h, p) && q in h && q != [] && Parent(q) == p
    ensures Planned(h, q) && p < q
  {
    assert q[0] == p[0];
  }

  /** A completed purge has removed exactly the planned paths. */
  lemma CompletedPurge(start: Home, now: Home, plan: seq<Artifact>, removed: seq<Path>)
    requires PlanFor(start, plan) && Removed(start, now, plan, removed) && |removed| == |plan|
    ensures forall p :: p in now <==> p in start && !Planned(start, p)
    ensures forall p :: p in start && !Planned(start, p) ==> SameButTime(start[p], now[p])
  {
    hide FingerprintAt, Ordered, SameButTime;
    forall p
      ensures p in removed <==> Planned(start, p)
    {
      if Planned(start, p) {
        var a :| a in plan && a.path == p;
        var k :| 0 <= k < |plan| && plan[k] == a;
        assert removed[k] in removed;
      }
      if p in removed {
        var k :| 0 <= k < |removed| && removed[k] == p;
        assert plan[k] in plan;
      }
    }
  }

  lemma HomeIsFolder(h: Home)
    requires Rooted(h)
    ensures HomeFingerprint(h).Some?
  {
  }

  lemma HomeIsEmptied(start: Home, now: Home, plan: seq<Artifact>, removed: seq<Path>)
    requires Rooted(now) && Removed(start, now, plan, removed)
    ensures now.Keys == {[]} <==> start.Keys == {[]} + (set p | p in removed)
    ensures HomeFingerprint(start) == HomeFingerprint(now)
  {
    hide FingerprintAt;
    assert [] in now;
    SameFingerprint([], start[[]], now[[]]);
    forall p | p in removed
      ensures p in start
    {
    }
  }
}
