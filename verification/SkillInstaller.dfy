/** The installer itself: it plans every copy before it writes to any, and applies each plan
    change by change. */
module SkillInstallers {
  import opened Options
  import opened JsStrings
  import opened Utf
  import opened FilesystemPaths
  import opened FilesystemVisibility
  import opened SkillInstallPlans

  datatype Conflict =
    | UnsafePath | NotRegular | Obstacle(path: Path) | UnmanagedDirectory | NotManaged(path: Path) | LocallyModified(path: Path)

  lemma ManifestIsListed()
    ensures !Ignored(MANIFEST)
  {
    assert Js(".skill-install.json")[1] == 's' as int && Js("Thumbs.db")[1] == 'h' as int && Js(".DS_Store")[1] == 'D' as int;
  }

  ghost predicate PathClear(u: Copy, p: Path) {
    forall q :: Above(q, p) && q in u ==> if q == p then u[q].Regular? else u[q].Folder?
  }

  lemma DesiredPaths(s: Source)
    requires SourceTree(s)
    ensures forall p :: p in s.names + [MANIFEST] <==> Desired(s, p)
    ensures forall p :: Desired(s, p) ==> p != []
  {
    forall p | Desired(s, p)
      ensures p != []
    {
      if p == [] { assert Above(p, MANIFEST); }
    }
  }

  function Without(s: seq<Path>, x: Path): (r: seq<Path>)
    ensures forall y :: y in r <==> y in s && y != x
    ensures (forall i, j :: 0 <= i < j < |s| ==> s[i] != s[j]) ==> forall i, j :: 0 <= i < j < |r| ==> r[i] != r[j]
  {
    if s == [] then []
    else
      assert s == [s[0]] + s[1..];
      assert (forall i, j :: 0 <= i < j < |s| ==> s[i] != s[j]) ==> s[0] !in s[1..];
      if s[0] == x then Without(s[1..], x) else [s[0]] + Without(s[1..], x)
  }

  lemma PlanIsComplete(content: seq<Change>, missing: seq<Change>, changes: seq<Change>, u: Copy, s: Source, f: Format)
    requires forall c :: c in content <==> IsContent(u, c.path) && Wants(u, s, f, c)
    requires forall c :: c in missing <==> c.kind.CreateFile? && c.path != MANIFEST && Wants(u, s, f, c)
    requires forall i, j :: 0 <= i < j < |content| ==> content[i] != content[j]
    requires forall i, j :: 0 <= i < j < |missing| ==> missing[i] != missing[j]
    requires changes == content + missing + (if !HasManifest(u) then [Change(CreateFile, MANIFEST)]
                                             else if !ManifestInSync(u, s, f) then [Change(UpdateFile, MANIFEST)] else [])
    ensures Lists(changes, u, s, f)
  {
    hide Ignored, ContentHash, ManifestInSync, InSync;
    forall c
      ensures c in changes <==> Wants(u, s, f, c)
    {
    }
    forall c | c in content
      ensures c !in missing && c.path != MANIFEST
    {
      assert IsContent(u, c.path);
    }
    assert forall i :: 0 <= i < |content| ==> changes[i] in content;
    assert forall i :: |content| <= i < |content| + |missing| ==> changes[i] in missing;
  }

  lemma MissingStaysMissing(u: Copy, q: Path, p: Path)
    requires Grown(u) && q !in u && Above(q, p)
    ensures forall r :: Above(r, p) && |r| >= |q| ==> r !in u
  {
    forall r | Above(r, p) && |r| >= |q|
      ensures r !in u
    {
      assert Above(q, r);
      if r in u && r != q { AboveIsFolder(u, r, q); }
    }
  }

  class InstalledCopy {
    const source: Source
    const format: Format
    /** A link or a non-directory stands on the way to the copy. */
    const blocked: bool
    var nodes: Copy

    ghost predicate Valid()
      reads this
    {
      SourceTree(source) && Faithful(format) && (!blocked ==> Grown(nodes))
    }

    ghost predicate Clear(force: bool)
      reads this
    {
      !blocked && NoConflict(nodes, source, format, force)
    }

    constructor (source: Source, format: Format, blocked: bool, nodes: Copy)
      requires SourceTree(source) && Faithful(format) && (!blocked ==> Grown(nodes))
      ensures Valid() && this.source == source && this.format == format && this.nodes == nodes && this.blocked == blocked
    {
      this.source, this.format, this.blocked, this.nodes := source, format, blocked, nodes;
    }

    /** Every regular file outside ignored names, each once; a special file stops the listing. */
    method ListFiles() returns (r: Result<seq<Path>, Conflict>)
      ensures r.Err? <==> !NoSpecial(nodes)
      ensures r.Err? ==> r.error == NotRegular
      ensures r.Ok? ==> forall p :: p in r.value <==> p in nodes && nodes[p].Regular? && !Ignored(p)
      ensures r.Ok? ==> forall i, j :: 0 <= i < j < |r.value| ==> r.value[i] != r.value[j]
    {
      hide Ignored;
      var rest := nodes.Keys;
      var files: seq<Path> := [];
      while rest != {}
        invariant rest <= nodes.Keys
        invariant forall p :: p in nodes && p !in rest && nodes[p].Irregular? ==> Ignored(p)
        invariant forall p :: p in files <==> p in nodes && p !in rest && nodes[p].Regular? && !Ignored(p)
        invariant forall i, j :: 0 <= i < j < |files| ==> files[i] != files[j]
        decreases |rest|
      {
        var p: Path :| p in rest;
        if !Ignored(p) {
          if nodes[p].Irregular? {
            return Err(NotRegular);
          }
          if nodes[p].Regular? {
            assert p !in files;
            files := files + [p];
          }
        }
        rest := rest - {p};
      }
      return Ok(files);
    }

    /** Walks each desired path from the top, as far as it exists. */
    method FirstObstacle(p: Path) returns (obstacle: Option<Path>)
      requires Grown(nodes) && p != [] && Desired(source, p)
      ensures obstacle.None? <==> forall q :: Above(q, p) && q in nodes ==> if q == p then nodes[q].Regular? else nodes[q].Folder?
    {
      hide Desired;
      if [] in nodes { assert nodes[[]].Folder?; }
      hide Grown;
      var i := 0;
      while i < |p|
        invariant 0 <= i <= |p|
        invariant forall q :: Above(q, p) && |q| <= i && q in nodes ==> if q == p then nodes[q].Regular? else nodes[q].Folder?
      {
        i := i + 1;
        var q := p[..i];
        if q !in nodes {
          MissingStaysMissing(nodes, q, p);
          return None;
        }
        if if i == |p| then nodes[q].Regular? else nodes[q].Folder? {
          assert forall r: Path :: Above(r, p) && |r| == i ==> r == q;
        } else {
          assert Above(q, p);
          return Some(q);
        }
      }
      return None;
    }

    method Obstacles() returns (conflicts: seq<Conflict>)
      requires Valid() && Grown(nodes)
      ensures conflicts == [] <==> Unobstructed(nodes, source)
    {
      hide Grown, SourceTree, Faithful, Above;
      conflicts := [];
      var paths := source.names + [MANIFEST];
      DesiredPaths(source);
      var i := 0;
      while i < |paths|
        invariant 0 <= i <= |paths|
        invariant conflicts == [] <==> forall j :: 0 <= j < i ==> PathClear(nodes, paths[j])
      {
        assert paths[i] in paths;
        var obstacle := FirstObstacle(paths[i]);
        assert obstacle.None? <==> PathClear(nodes, paths[i]);
        if obstacle.Some? && Obstacle(obstacle.value) !in conflicts {
          conflicts := conflicts + [Obstacle(obstacle.value)];
        }
        i := i + 1;
      }
      assert forall p :: Desired(source, p) ==> exists j :: 0 <= j < |paths| && paths[j] == p;
    }

    /** Whether the directory holds content the installer cannot prove it wrote. */
    method Ownership(files: seq<Path>) returns (unmanaged: bool, identical: bool, recorded: map<Path, Hash>)
      requires forall p :: p in files <==> IsContent(nodes, p)
      ensures unmanaged <==> Unmanaged(nodes, source, format)
      ensures identical <==> Identical(nodes, source)
      ensures recorded == Recorded(nodes, source, format)
    {
      hide Ignored, ContentHash;
      var manifest := ManifestOf(nodes, format);
      assert files != [] <==> HasContent(nodes) by {
        if files != [] { assert IsContent(nodes, files[0]); }
      }
      unmanaged := files != [] && (manifest.None? || manifest.value.skill != source.skill);
      identical := forall p :: p in files ==> InSync(nodes, source, p);
      recorded := if unmanaged || manifest.None? then map[] else manifest.value.files;
    }

    /** One pass over the installed files. */
    method ContentChanges(force: bool, files: seq<Path>, unmanaged: bool, recorded: map<Path, Hash>)
      returns (changes: seq<Change>, conflicts: seq<Conflict>)
      requires forall p :: p in files ==> IsContent(nodes, p)
      requires forall i, j :: 0 <= i < j < |files| ==> files[i] != files[j]
      requires unmanaged == Unmanaged(nodes, source, format) && recorded == Recorded(nodes, source, format)
      ensures conflicts == [] <==> forall p :: p in files ==> FileAllowed(nodes, source, format, force, p)
      ensures conflicts == [] ==> forall c :: c in changes <==> c.path in files && Wants(nodes, source, format, c)
      ensures forall i, j :: 0 <= i < j < |changes| ==> changes[i] != changes[j]
    {
      hide Ignored, ContentHash, Unmanaged, Recorded, Wants, InSync, Owned, Modified;
      changes, conflicts := [], [];
      var i := 0;
      while i < |files|
        invariant 0 <= i <= |files|
        invariant conflicts == [] <==> forall j :: 0 <= j < i ==> FileAllowed(nodes, source, format, force, files[j])
        invariant forall c :: c in changes ==> c.path in files[..i]
        invariant conflicts == [] ==> forall c :: c in changes <==> c.path in files[..i] && Wants(nodes, source, format, c)
        invariant forall i, j :: 0 <= i < j < |changes| ==> changes[i] != changes[j]
      {
        var file := files[i];
        assert file in files && IsContent(nodes, file);
        assert files[..i + 1] == files[..i] + [file] && file !in files[..i];
        OneWanted(nodes, source, format, file);
        var bytes := nodes[file].bytes;
        if !InSync(nodes, source, file) {
          if !Owned(unmanaged, recorded, source, file) {
            conflicts := conflicts + [NotManaged(file)];
          } else if Modified(recorded, bytes, file) && !force {
            conflicts := conflicts + [LocallyModified(file)];
          } else {
            changes := changes + [Adapting(source, file)];
          }
        }
        i := i + 1;
      }
      assert files[..|files|] == files;
    }

    method MissingFiles(files: seq<Path>) returns (changes: seq<Change>)
      requires Valid() && forall p :: p in files <==> IsContent(nodes, p)
      ensures forall c :: c in changes <==> c.kind.CreateFile? && c.path != MANIFEST && Wants(nodes, source, format, c)
      ensures forall i, j :: 0 <= i < j < |changes| ==> changes[i] != changes[j]
    {
      hide IsContent, Faithful, Grown;
      changes := [];
      var i := 0;
      while i < |source.names|
        invariant 0 <= i <= |source.names|
        invariant forall c :: c in changes <==> c.kind.CreateFile? && c.path in source.names[..i] && c.path !in files
        invariant forall i, j :: 0 <= i < j < |changes| ==> changes[i] != changes[j]
      {
        var name := source.names[i];
        assert source.names[..i + 1] == source.names[..i] + [name] && name !in source.names[..i];
        if name !in files {
          changes := changes + [Change(CreateFile, name)];
        }
        i := i + 1;
      }
      assert source.names[..|source.names|] == source.names;
    }

    /** The plan: conflicts, or the changes to make. */
    method PlanTarget(force: bool) returns (changes: seq<Change>, conflicts: seq<Conflict>)
      requires Valid()
      ensures conflicts == [] <==> Clear(force)
      ensures conflicts == [] ==> Lists(changes, nodes, source, format)
    {
      hide Ignored, ContentHash, Faithful, Grown, Unmanaged, Recorded, FileAllowed, NoSpecial, Unobstructed, SourceTree;
      changes := [];
      if blocked {
        return [], [UnsafePath];
      }
      var listed := ListFiles();
      if listed.Err? {
        return [], [listed.error];
      }
      conflicts := Obstacles();
      if conflicts != [] {
        return;
      }
      var files := Without(listed.value, MANIFEST);
      var unmanaged, identical, recorded := Ownership(files);
      if unmanaged && !identical && !force {
        return [], [UnmanagedDirectory];
      }
      changes, conflicts := ContentChanges(force, files, unmanaged, recorded);
      var missing := MissingFiles(files);
      ghost var content := changes;
      changes := changes + missing;
      ManifestIsListed();
      if MANIFEST !in listed.value {
        changes := changes + [Change(CreateFile, MANIFEST)];
      } else if !ManifestInSync(nodes, source, format) {
        changes := changes + [Change(UpdateFile, MANIFEST)];
      }
      if conflicts == [] {
        assert content + missing + [] == content + missing;
        PlanIsComplete(content, missing, changes, nodes, source, format);
      }
    }

    /** Climbs from a removed file as long as the folders left behind are empty. */
    method RemoveEmptyParents(path: Path)
      requires path != []
      modifies this
      ensures nodes == WithoutEmptyParents(old(nodes), path)
    {
      var d := Parent(path);
      ghost var below := path;
      while d != [] && IsEmptyFolder(nodes, d)
        invariant below != [] && d == Parent(below)
        invariant WithoutEmptyParents(nodes, below) == WithoutEmptyParents(old(nodes), path)
        decreases |d|
      {
        nodes := nodes - {d};
        below := d;
        d := Parent(d);
      }
    }

    method ApplyChange(c: Change)
      requires Applicable(source, c)
      modifies this
      ensures nodes == Applied(old(nodes), source, format, c)
    {
      if c.kind.DeleteFile? {
        nodes := nodes - {c.path};
        RemoveEmptyParents(c.path);
      } else {
        nodes := WithFolders(nodes, Parent(c.path));
        nodes := nodes[c.path := Regular(ContentFor(source, format, c.path))];
      }
    }

    /** Applies the plan, the manifest last, until `stopAfter` changes are done. */
    method ApplyPlan(plan: seq<Change>, stopAfter: nat) returns (done: nat)
      requires AllApplicable(source, plan)
      modifies this
      ensures done == if stopAfter < |plan| then stopAfter else |plan|
      ensures |Ordered(plan)| == |plan| && AllApplicable(source, Ordered(plan)[..done])
      ensures nodes == AppliedAll(old(nodes), source, format, Ordered(plan)[..done])
    {
      hide Applicable, Applied;
      OrderedIsPermutation(plan);
      var ordered := Ordered(plan);
      done := if stopAfter < |plan| then stopAfter else |plan|;
      ghost var taken := ordered[..done];
      assert forall c :: c in taken ==> c in ordered;
      var i := 0;
      assert taken[0..] == taken;
      while i < done
        invariant 0 <= i <= done && AllApplicable(source, taken[i..])
        invariant AppliedAll(nodes, source, format, taken[i..]) == AppliedAll(old(nodes), source, format, taken)
      {
        assert taken[i..][0] == ordered[i] && taken[i..][1..] == taken[i + 1..];
        assert ordered[i] in taken[i..];
        assert forall c :: c in taken[i + 1..] ==> c in taken[i..];
        ApplyChange(ordered[i]);
        i := i + 1;
      }
    }

    /** Plans and applies one copy; stopped early or not, the copy stays plannable. */
    method ApplyOwnPlan(plan: seq<Change>, force: bool, stopAfter: nat) returns (done: nat)
      requires Valid() && Clear(force) && Lists(plan, nodes, source, format)
      modifies this
      ensures done == if stopAfter < |plan| then stopAfter else |plan|
      ensures Valid() && Clear(force)
      ensures done == |plan| ==> Settled()
    {
      hide Wants, SourceTree, NoConflict, Grown, Faithful, Lists, Applied, AllApplicable, AppliedAll, Ordered, Installed;
      PlanIsApplicable(plan, nodes, source, format);
      OrderedLists(plan, nodes, source, format);
      StoppedWhen(plan, force, stopAfter);
      done := ApplyPlan(plan, stopAfter);
    }

    lemma StoppedWhen(plan: seq<Change>, force: bool, stopAfter: nat)
      requires Valid() && Clear(force) && Lists(Ordered(plan), nodes, source, format) && ManifestLast(Ordered(plan))
      requires |Ordered(plan)| == |plan|
      ensures var done := if stopAfter < |plan| then stopAfter else |plan|;
              && AllApplicable(source, Ordered(plan)[..done])
              && var v := AppliedAll(nodes, source, format, Ordered(plan)[..done]);
              && Grown(v) && NoConflict(v, source, format, force)
              && (done == |plan| ==> Lists([], v, source, format) && Installed(v, source, format))
    {
      hide Wants, SourceTree, NoConflict, Grown, Faithful, Lists, Applied, AllApplicable, AppliedAll, Installed;
      var done := if stopAfter < |plan| then stopAfter else |plan|;
      StoppedAnywhere(nodes, source, format, force, Ordered(plan), done);
      if done == |plan| {
        assert Ordered(plan)[done..] == [];
        NothingWantedIsInstalled(AppliedAll(nodes, source, format, Ordered(plan)[..done]), source, format);
      }
    }

    /** The copy is installed and nothing remains to be done. */
    ghost predicate Settled()
      reads this
    {
      Installed(nodes, source, format) && Lists([], nodes, source, format)
    }
  }

  function Contents(plan: seq<Change>): seq<Change> {
    if plan == [] then [] else (if plan[0].path != MANIFEST then [plan[0]] else []) + Contents(plan[1..])
  }

  function Records(plan: seq<Change>): seq<Change> {
    if plan == [] then [] else (if plan[0].path == MANIFEST then [plan[0]] else []) + Records(plan[1..])
  }

  function Ordered(plan: seq<Change>): seq<Change> { Contents(plan) + Records(plan) }

  lemma {:induction false} PartsOf(plan: seq<Change>)
    ensures forall c :: c in Contents(plan) <==> c in plan && c.path != MANIFEST
    ensures forall c :: c in Records(plan) <==> c in plan && c.path == MANIFEST
    ensures |Contents(plan)| + |Records(plan)| == |plan|
  {
    if plan != [] {
      PartsOf(plan[1..]);
      assert plan == [plan[0]] + plan[1..];
    }
  }

  lemma OrderedIsPermutation(plan: seq<Change>)
    ensures |Ordered(plan)| == |plan| && forall c :: c in Ordered(plan) <==> c in plan
  {
    PartsOf(plan);
  }

  ghost predicate Distinct(plan: seq<Change>) { forall i, j :: 0 <= i < j < |plan| ==> plan[i] != plan[j] }

  lemma {:induction false} PartsAreDistinct(plan: seq<Change>)
    requires Distinct(plan)
    ensures Distinct(Contents(plan)) && Distinct(Records(plan))
  {
    if plan != [] {
      assert Distinct(plan[1..]);
      PartsAreDistinct(plan[1..]);
      PartsOf(plan[1..]);
      assert plan[0] !in plan[1..];
    }
  }

  /** At most one change of a plan is about the manifest. */
  lemma OneRecord(plan: seq<Change>, u: Copy, s: Source, f: Format)
    requires Lists(plan, u, s, f) && MANIFEST !in s.files
    ensures |Records(plan)| <= 1
  {
    PartsOf(plan);
    PartsAreDistinct(plan);
    var r := Records(plan);
    forall c, d | c in r && d in r
      ensures c == d
    {
      assert Wants(u, s, f, c) && Wants(u, s, f, d);
    }
    if r != [] { assert r[0] == r[|r| - 1]; }
  }

  lemma OrderedLists(plan: seq<Change>, u: Copy, s: Source, f: Format)
    requires Lists(plan, u, s, f) && SourceTree(s)
    ensures Lists(Ordered(plan), u, s, f) && ManifestLast(Ordered(plan)) && |Ordered(plan)| == |plan|
  {
    hide Wants;
    PartsOf(plan);
    PartsAreDistinct(plan);
    OneRecord(plan, u, s, f);
    var contents, records := Contents(plan), Records(plan);
    assert forall i :: 0 <= i < |contents| ==> contents[i] in contents;
    assert forall i :: 0 <= i < |records| ==> records[i] in records;
  }

  datatype Report = Report(plans: seq<seq<Change>>, conflicted: bool, pending: bool, applied: bool, ok: bool)

  ghost predicate AllValid(copies: seq<InstalledCopy>)
    reads copies
  {
    forall i :: 0 <= i < |copies| ==> copies[i].Valid()
  }

  ghost predicate AllClear(copies: seq<InstalledCopy>, force: bool)
    reads copies
  {
    forall i :: 0 <= i < |copies| ==> copies[i].Clear(force)
  }

  ghost predicate AllSettled(copies: seq<InstalledCopy>)
    reads copies
  {
    forall i :: 0 <= i < |copies| ==> copies[i].Settled()
  }

  method PlanAll(copies: seq<InstalledCopy>, force: bool) returns (plans: seq<seq<Change>>, conflicted: bool, pending: bool)
    requires AllValid(copies)
    ensures conflicted <==> !AllClear(copies, force)
    ensures |plans| == |copies|
    ensures !conflicted ==>
              forall i :: 0 <= i < |copies| ==> Lists(plans[i], copies[i].nodes, copies[i].source, copies[i].format)
    ensures !conflicted ==> (pending <==> exists i :: 0 <= i < |copies| && plans[i] != [])
  {
    plans, conflicted, pending := [], false, false;
    var i := 0;
    while i < |copies|
      invariant 0 <= i <= |copies| && |plans| == i
      invariant conflicted <==> !forall j :: 0 <= j < i ==> copies[j].Clear(force)
      invariant !conflicted ==>
                  forall j :: 0 <= j < i ==> Lists(plans[j], copies[j].nodes, copies[j].source, copies[j].format)
      invariant pending <==> exists j :: 0 <= j < i && plans[j] != []
    {
      var changes, conflicts := copies[i].PlanTarget(force);
      ghost var before := plans;
      plans := plans + [changes];
      assert forall j :: 0 <= j < i ==> plans[j] == before[j];
      if conflicts != [] {
        conflicted := true;
      }
      if changes != [] {
        assert plans[i] != [];
        pending := true;
      }
      i := i + 1;
    }
  }

  /** All copies are planned before any is written. `stopAfter` is how many changes are made
      before something kills the run. */
  method InstallSkills(copies: seq<InstalledCopy>, check: bool, force: bool, stopAfter: nat) returns (report: Report, finished: bool)
    requires AllValid(copies) && forall i, j :: 0 <= i < j < |copies| ==> copies[i] != copies[j]
    modifies copies
    ensures AllValid(copies)
    ensures report.conflicted <==> !old(AllClear(copies, force))
    ensures check || report.conflicted ==> forall i :: 0 <= i < |copies| ==> copies[i].nodes == old(copies[i].nodes)
    ensures !report.conflicted ==> AllClear(copies, force)
    ensures !report.conflicted ==>
              && |report.plans| == |copies|
              && forall i :: 0 <= i < |copies| ==> old(Lists(report.plans[i], copies[i].nodes, copies[i].source, copies[i].format))
    ensures !report.conflicted && !check ==> (finished <==> stopAfter >= Total(report.plans))
    ensures !report.conflicted && !check && finished ==> AllSettled(copies)
    ensures !report.conflicted && check && !report.pending ==> AllSettled(copies)
    ensures old(AllSettled(copies)) && !report.conflicted ==> !report.pending
    ensures report.ok <==> !report.conflicted && (check ==> !report.pending)
  {
    hide Lists, InstalledCopy.Clear, InstalledCopy.Settled;
    var plans, conflicted, pending := PlanAll(copies, force);
    report := Report(plans, conflicted, pending, !check && !conflicted && pending, !conflicted && (check ==> !pending));
    finished := true;
    if !conflicted && AllSettled(copies) { SettledPlansAreEmpty(copies, plans); }
    if conflicted || !pending || check {
      if !conflicted && !pending { NothingPending(copies, plans); NothingToCount(plans); }
      return;
    }
    finished := ApplyAll(copies, plans, force, stopAfter);
  }

  lemma {:induction false} NothingToCount(plans: seq<seq<Change>>)
    requires forall i :: 0 <= i < |plans| ==> plans[i] == []
    ensures Total(plans) == 0
  {
    if plans != [] { NothingToCount(plans[1..]); }
  }

  lemma SettledPlansAreEmpty(copies: seq<InstalledCopy>, plans: seq<seq<Change>>)
    requires AllSettled(copies) && |plans| == |copies|
    requires forall i :: 0 <= i < |copies| ==> Lists(plans[i], copies[i].nodes, copies[i].source, copies[i].format)
    ensures forall i :: 0 <= i < |copies| ==> plans[i] == []
  {
    hide Wants, Installed;
    forall i | 0 <= i < |copies|
      ensures plans[i] == []
    {
      assert copies[i].Settled();
      SomeMember(plans[i]);
    }
  }

  lemma SomeMember(plan: seq<Change>)
    ensures plan == [] || exists c :: c in plan
  {
    if plan != [] { assert plan[0] in plan; }
  }

  lemma NothingPending(copies: seq<InstalledCopy>, plans: seq<seq<Change>>)
    requires AllValid(copies) && |plans| == |copies| && forall i :: 0 <= i < |copies| ==> plans[i] == []
    requires forall i :: 0 <= i < |copies| ==> Lists(plans[i], copies[i].nodes, copies[i].source, copies[i].format)
    ensures AllSettled(copies)
  {
    hide Lists, Installed, SourceTree, Grown, Faithful;
    forall i | 0 <= i < |copies|
      ensures copies[i].Settled()
    {
      assert copies[i].Valid();
      NothingWantedIsInstalled(copies[i].nodes, copies[i].source, copies[i].format);
    }
  }

  method ApplyAll(copies: seq<InstalledCopy>, plans: seq<seq<Change>>, force: bool, stopAfter: nat) returns (finished: bool)
    requires AllValid(copies) && AllClear(copies, force)
    requires forall i, j :: 0 <= i < j < |copies| ==> copies[i] != copies[j]
    requires |plans| == |copies|
    requires forall i :: 0 <= i < |copies| ==> Lists(plans[i], copies[i].nodes, copies[i].source, copies[i].format)
    modifies copies
    ensures AllValid(copies) && AllClear(copies, force)
    ensures finished ==> AllSettled(copies)
    ensures finished <==> stopAfter >= Total(plans)
  {
    hide Lists, InstalledCopy.Valid, InstalledCopy.Clear, InstalledCopy.Settled;
    var budget: nat := stopAfter;
    finished := true;
    var i := 0;
    assert plans[0..] == plans;
    while i < |copies|
      invariant 0 <= i <= |copies|
      invariant AllValid(copies) && AllClear(copies, force)
      invariant forall j :: i <= j < |copies| ==> copies[j].nodes == old(copies[j].nodes)
      invariant finished ==> forall j :: 0 <= j < i ==> copies[j].Settled()
      invariant finished ==> budget - Total(plans[i..]) == stopAfter - Total(plans)
      invariant !finished ==> stopAfter < Total(plans)
    {
      assert plans[i..][0] == plans[i] && plans[i..][1..] == plans[i + 1..];
      var done := copies[i].ApplyOwnPlan(plans[i], force, budget);
      budget := budget - done;
      finished := finished && done == |plans[i]|;
      i := i + 1;
    }
  }

  /** How many changes the plans hold together. */
  function Total(plans: seq<seq<Change>>): nat { if plans == [] then 0 else |plans[0]| + Total(plans[1..]) }
}
