/** Two agent clients that share files in one repository: what installing and uninstalling each
    of them does, and that the shared files go with the second of them. */
module AgentClients {
  import opened Options
  import opened JsStrings
  import opened ClaudeBridges

  datatype Spot = Canonical | CodexFile | ProjectSkill | ClaudeFile | ClaudeSkill | Elsewhere(path: JsString)

  type Repository = map<Spot, JsString>

  /** The texts an installation writes. */
  datatype Kit = Kit(canonical: JsString, codexFile: JsString, projectSkill: JsString, claudeSkill: JsString)

  function Look(files: Repository, spot: Spot): Option<JsString> { if spot in files then Some(files[spot]) else None }

  // ----- whose file is it

  // Headers and markers are put together from short pieces, like the texts of `ClaudeBridges`.

  const CANONICAL_HEADER: JsString := Js("<!-- ai-office") + Js(":managed ") + Js("project-") + Js("instructions") + Js(" v2 -->")
  const LEGACY_HEADER: JsString := Js("<!-- ai-office") + Js(":managed ") + Js("project-") + Js("instructions") + Js(" v1 -->")
  const CODEX_HEADER: JsString :=
    Js("<!-- ai-office") + Js(":managed ") + Js("codex-project-") + Js("instructions") + Js(" v1 -->")
  const PROJECT_SKILL_MARKER: JsString := Js("<!-- ai-office") + Js(":managed ") + Js("repository-") + Js("skill v1 -->")
  const CLAUDE_SKILL_MARKER: JsString :=
    Js("<!-- ai-office") + Js(":managed ") + Js("claude-") + Js("repository-") + Js("skill v1 -->")
  const SKILL_OPENING: JsString := Js("---") + [LF] + Js("name: ") + Js("ai-office") + [LF]
  const FRONTMATTER_END: JsString := [LF] + Js("---") + [LF]

  function IndexFrom(s: JsString, m: JsString, i: nat): Option<nat>
    decreases |s| - i
  {
    if i + |m| > |s| then None else if At(s, i, m) then Some(i) else IndexFrom(s, m, i + 1)
  }

  predicate HasSkillMarker(content: JsString, marker: JsString) {
    var n := NormalizeEol(content);
    && SKILL_OPENING <= n
    && var end := IndexFrom(n, FRONTMATTER_END, 4);
    end.Some? && end.value + 5 <= |n| && [LF] + marker + [LF] <= n[end.value + 5..]
  }

  predicate ManagedAt(spot: Spot, content: JsString) {
    match spot
    case Canonical => CANONICAL_HEADER <= content
    case CodexFile => CODEX_HEADER <= content || LEGACY_HEADER <= content
    case ProjectSkill => HasSkillMarker(content, PROJECT_SKILL_MARKER)
    case ClaudeSkill => HasSkillMarker(content, CLAUDE_SKILL_MARKER)
    case _ => false
  }

  /** What the kit writes is recognised as AI Office's own. */
  predicate KitOk(kit: Kit) {
    && ManagedAt(Canonical, kit.canonical) && ManagedAt(CodexFile, kit.codexFile)
    && ManagedAt(ProjectSkill, kit.projectSkill) && ManagedAt(ClaudeSkill, kit.claudeSkill)
  }

  predicate UserOwnedHost(files: Repository) { CodexFile in files && !ManagedAt(CodexFile, files[CodexFile]) }

  predicate Equivalent(a: JsString, b: JsString) { NormalizeEol(a) == NormalizeEol(b) }

  // ----- plans

  datatype Operation =
    | Create(spot: Spot, next: JsString)
    | Update(spot: Spot, expected: JsString, next: JsString)
    | Delete(spot: Spot, expected: JsString)

  function Expected(op: Operation): Option<JsString> { if op.Create? then None else Some(op.expected) }

  function Reconcile(files: Repository, spot: Spot, next: JsString): seq<Operation> {
    if spot !in files then [Create(spot, next)]
    else if ManagedAt(spot, files[spot]) && !Equivalent(files[spot], next) then [Update(spot, files[spot], next)]
    else []
  }

  function DeleteIfManaged(files: Repository, spot: Spot): seq<Operation> {
    if spot in files && ManagedAt(spot, files[spot]) then [Delete(spot, files[spot])] else []
  }

  function SharedInstall(files: Repository, kit: Kit): seq<Operation> {
    Reconcile(files, Canonical, kit.canonical) + Reconcile(files, ProjectSkill, kit.projectSkill)
  }

  function SharedRemoval(files: Repository): seq<Operation> {
    DeleteIfManaged(files, ProjectSkill) + DeleteIfManaged(files, Canonical)
  }

  function BridgeInstall(files: Repository): seq<Operation> {
    match Analyze(Look(files, ClaudeFile))
    case AbsentBridge => [Create(ClaudeFile, OWN_FILE)]
    case UnmanagedBridge => if ClaudeFile in files then [Update(ClaudeFile, files[ClaudeFile], WithBlock(files[ClaudeFile]))] else []
    case ManagedBridge(start, end, _, integrated) =>
      if ClaudeFile in files && start <= end <= |files[ClaudeFile]| && !integrated
      then [Update(ClaudeFile, files[ClaudeFile], files[ClaudeFile][..start] + BLOCK + files[ClaudeFile][end..])]
      else []
    case _ => []
  }

  function BridgeRemoval(files: Repository): seq<Operation> {
    match Analyze(Look(files, ClaudeFile))
    case ManagedBridge(start, end, owned, _) =>
      if ClaudeFile !in files || !(start <= end <= |files[ClaudeFile]|) then []
      else if owned then [Delete(ClaudeFile, files[ClaudeFile])]
      else [Update(ClaudeFile, files[ClaudeFile], WithoutBlock(files[ClaudeFile], start, end))]
    case _ => []
  }

  function InstallCodex(files: Repository, kit: Kit): seq<Operation> {
    SharedInstall(files, kit) + Reconcile(files, CodexFile, kit.codexFile)
  }

  function InstallClaude(files: Repository, kit: Kit): seq<Operation> {
    SharedInstall(files, kit) + BridgeInstall(files) + Reconcile(files, ClaudeSkill, kit.claudeSkill)
  }

  predicate ClaudeNeedsShared(files: Repository) {
    var bridge := Analyze(Look(files, ClaudeFile));
    bridge.ManagedBridge? || bridge.ImportedDirectly? || bridge.ConflictingBridge?
  }

  function UninstallCodex(files: Repository): seq<Operation> {
    DeleteIfManaged(files, CodexFile)
    + if ClaudeNeedsShared(files) || UserOwnedHost(files) then [] else SharedRemoval(files)
  }

  predicate HostNeedsShared(files: Repository) {
    var bridge := Analyze(Look(files, ClaudeFile));
    CodexFile in files || bridge.ImportedDirectly? || bridge.ConflictingBridge?
  }

  function UninstallClaude(files: Repository): seq<Operation> {
    DeleteIfManaged(files, ClaudeSkill) + BridgeRemoval(files)
    + if HostNeedsShared(files) then [] else SharedRemoval(files)
  }

  // ----- applying a plan, operation by operation

  datatype Guard = NoGuard | CodexGuard | ClaudeGuard

  predicate IsSharedDelete(op: Operation) { op.Delete? && (op.spot.Canonical? || op.spot.ProjectSkill?) }

  /** Before a shared file goes, nobody may need it any more. */
  predicate GuardAdmits(files: Repository, op: Operation, guard: Guard) {
    match guard
    case NoGuard => true
    case CodexGuard => IsSharedDelete(op) ==> !UserOwnedHost(files) && !ClaudeNeedsShared(files)
    case ClaudeGuard => IsSharedDelete(op) ==> CodexFile !in files && !ClaudeNeedsShared(files)
  }

  predicate Admits(files: Repository, op: Operation, guard: Guard) {
    Look(files, op.spot) == Expected(op) && GuardAdmits(files, op, guard)
  }

  function Effect(files: Repository, op: Operation): Repository {
    if op.Delete? then files - {op.spot} else files[op.spot := op.next]
  }

  datatype Outcome = Outcome(files: Repository, ok: bool)

  function ApplyAll(files: Repository, ops: seq<Operation>, guard: Guard): Outcome
    decreases |ops|
  {
    if ops == [] then Outcome(files, true)
    else if !Admits(files, ops[0], guard) then Outcome(files, false)
    else ApplyAll(Effect(files, ops[0]), ops[1..], guard)
  }

  lemma {:induction false} ApplyConcat(files: Repository, a: seq<Operation>, b: seq<Operation>, guard: Guard)
    ensures var first := ApplyAll(files, a, guard);
            ApplyAll(files, a + b, guard) == if first.ok then ApplyAll(first.files, b, guard) else first
    decreases |a|
  {
    if a == [] {
      assert a + b == b;
    } else if Admits(files, a[0], guard) {
      ApplyConcat(Effect(files, a[0]), a[1..], b, guard);
      assert (a + b)[1..] == a[1..] + b && (a + b)[0] == a[0];
    }
  }

  lemma ApplyOne(files: Repository, op: Operation, guard: Guard)
    ensures ApplyAll(files, [op], guard) == if Admits(files, op, guard) then Outcome(Effect(files, op), true) else Outcome(files, false)
  {
    assert [op][1..] == [];
  }

  lemma NothingApplied(files: Repository, guard: Guard)
    ensures ApplyAll(files, [], guard) == Outcome(files, true)
  {
  }

  lemma AbsentIffNone(file: Option<JsString>)
    ensures Analyze(file).AbsentBridge? <==> file.None?
  {
  }

  lemma ManagedIsInside(content: JsString)
    ensures var b := Analyze(Some(content)); b.ManagedBridge? ==> b.start <= b.end <= |content|
  {
    hide NormalizeEol, Trim, DirectImport, MatchAll;
  }

  /** The files of one repository. */
  class ClientFiles {
    var files: Repository

    constructor (files: Repository)
      ensures this.files == files
    {
      this.files := files;
    }

    /** Each operation is carried out only if its file still is what the plan saw and its guard
        lets it; the first that is not stops the rest. */
    method Apply(operations: seq<Operation>, guard: Guard) returns (ok: bool)
      modifies this
      ensures Outcome(files, ok) == ApplyAll(old(files), operations, guard)
    {
      hide Admits, Effect;
      var i := 0;
      assert operations[0..] == operations;
      while i < |operations|
        invariant 0 <= i <= |operations|
        invariant ApplyAll(files, operations[i..], guard) == ApplyAll(old(files), operations, guard)
      {
        var op := operations[i];
        assert operations[i..][0] == op && operations[i..][1..] == operations[i + 1..];
        if !Admits(files, op, guard) {
          return false;
        }
        files := Effect(files, op);
        i := i + 1;
      }
      return true;
    }

    method PlanInstallCodex(kit: Kit) returns (operations: seq<Operation>)
      ensures operations == InstallCodex(files, kit) && forall op :: op in operations ==> Careful(files, op)
      ensures ApplyAll(files, operations, NoGuard) == Outcome(AfterInstallCodex(files, kit), true)
    {
      hide ManagedAt, Equivalent, Careful, ApplyAll, AfterInstallCodex;
      operations := Reconcile(files, Canonical, kit.canonical);
      operations := operations + Reconcile(files, ProjectSkill, kit.projectSkill);
      operations := operations + Reconcile(files, CodexFile, kit.codexFile);
      InstallCodexApplies(files, kit);
      PlansAreCareful(files, kit);
    }

    method PlanInstallClaude(kit: Kit) returns (operations: seq<Operation>)
      ensures operations == InstallClaude(files, kit) && forall op :: op in operations ==> Careful(files, op)
      ensures ApplyAll(files, operations, NoGuard) == Outcome(AfterInstallClaude(files, kit), true)
    {
      hide ManagedAt, Equivalent, Analyze, WithBlock, OWN_FILE, BLOCK, Careful, ApplyAll, AfterInstallClaude;
      operations := SharedInstall(files, kit);
      var bridge := Analyze(Look(files, ClaudeFile));
      AbsentIffNone(Look(files, ClaudeFile));
      match bridge {
        case AbsentBridge => operations := operations + [Create(ClaudeFile, OWN_FILE)];
        case UnmanagedBridge =>
          operations := operations + [Update(ClaudeFile, files[ClaudeFile], WithBlock(files[ClaudeFile]))];
        case ManagedBridge(start, end, _, integrated) =>
          ManagedIsInside(files[ClaudeFile]);
          if !integrated {
            operations := operations +
              [Update(ClaudeFile, files[ClaudeFile], files[ClaudeFile][..start] + BLOCK + files[ClaudeFile][end..])];
          }
        case _ =>
      }
      operations := operations + Reconcile(files, ClaudeSkill, kit.claudeSkill);
      InstallClaudeApplies(files, kit);
      PlansAreCareful(files, kit);
    }

    method PlanUninstallClaude() returns (operations: seq<Operation>)
      ensures operations == UninstallClaude(files) && forall op :: op in operations ==> Careful(files, op)
      ensures ApplyAll(files, operations, ClaudeGuard).ok <==> !Stranding(files)
    {
      hide ManagedAt, Analyze, WithoutBlock, Careful, ApplyAll, Stranding;
      operations := DeleteIfManaged(files, ClaudeSkill);
      var bridge := Analyze(Look(files, ClaudeFile));
      if bridge.ManagedBridge? {
        operations := operations + BridgeRemoval(files);
      }
      if !(CodexFile in files || bridge.ImportedDirectly? || bridge.ConflictingBridge?) {
        operations := operations + SharedRemoval(files);
      }
      UninstallClaudeStops(files);
      PlansAreCareful(files, Kit([], [], [], []));
    }

    method PlanUninstallCodex() returns (operations: seq<Operation>)
      ensures operations == UninstallCodex(files) && forall op :: op in operations ==> Careful(files, op)
      ensures ApplyAll(files, operations, CodexGuard) == Outcome(AfterUninstallCodex(files), true)
    {
      hide ManagedAt, Analyze, Careful, ApplyAll, AfterUninstallCodex;
      operations := DeleteIfManaged(files, CodexFile);
      var bridge := Analyze(Look(files, ClaudeFile));
      var sharedRequiredByClaude := bridge.ManagedBridge? || bridge.ImportedDirectly? || bridge.ConflictingBridge?;
      if !sharedRequiredByClaude && !UserOwnedHost(files) {
        operations := operations + SharedRemoval(files);
      }
      UninstallCodexApplies(files);
      PlansAreCareful(files, Kit([], [], [], []));
    }
  }

  // ----- what each plan does to an unchanged repository

  function AfterReconcile(files: Repository, spot: Spot, next: JsString): Repository {
    if spot !in files || (ManagedAt(spot, files[spot]) && !Equivalent(files[spot], next)) then files[spot := next] else files
  }

  function AfterDelete(files: Repository, spot: Spot): Repository {
    if spot in files && ManagedAt(spot, files[spot]) then files - {spot} else files
  }

  lemma ReconcileApplies(now: Repository, planned: Repository, spot: Spot, next: JsString, guard: Guard)
    requires Look(now, spot) == Look(planned, spot)
    ensures ApplyAll(now, Reconcile(planned, spot, next), guard) == Outcome(AfterReconcile(now, spot, next), true)
  {
    hide ManagedAt, Equivalent, Analyze;
    ApplyOne(now, Create(spot, next), guard);
    if spot in planned { ApplyOne(now, Update(spot, planned[spot], next), guard); }
  }

  lemma DeleteApplies(now: Repository, planned: Repository, spot: Spot, guard: Guard)
    requires Look(now, spot) == Look(planned, spot)
    requires spot in planned ==> GuardAdmits(now, Delete(spot, planned[spot]), guard)
    ensures ApplyAll(now, DeleteIfManaged(planned, spot), guard) == Outcome(AfterDelete(now, spot), true)
  {
    hide ManagedAt, Analyze, GuardAdmits;
    NothingApplied(now, guard);
    if spot in planned { ApplyOne(now, Delete(spot, planned[spot]), guard); }
  }

  function AfterBridgeInstall(files: Repository): Repository {
    match Analyze(Look(files, ClaudeFile))
    case AbsentBridge => files[ClaudeFile := OWN_FILE]
    case UnmanagedBridge => if ClaudeFile in files then files[ClaudeFile := WithBlock(files[ClaudeFile])] else files
    case ManagedBridge(start, end, _, integrated) =>
      if ClaudeFile in files && start <= end <= |files[ClaudeFile]| && !integrated
      then files[ClaudeFile := files[ClaudeFile][..start] + BLOCK + files[ClaudeFile][end..]]
      else files
    case _ => files
  }

  function AfterBridgeRemoval(files: Repository): Repository {
    match Analyze(Look(files, ClaudeFile))
    case ManagedBridge(start, end, owned, _) =>
      if ClaudeFile !in files || !(start <= end <= |files[ClaudeFile]|) then files
      else if owned then files - {ClaudeFile}
      else files[ClaudeFile := WithoutBlock(files[ClaudeFile], start, end)]
    case _ => files
  }

  lemma BridgeInstallApplies(now: Repository, planned: Repository, guard: Guard)
    requires Look(now, ClaudeFile) == Look(planned, ClaudeFile)
    ensures ApplyAll(now, BridgeInstall(planned), guard) == Outcome(AfterBridgeInstall(now), true)
  {
    hide Analyze, WithBlock, BLOCK, OWN_FILE;
    AbsentIffNone(Look(planned, ClaudeFile));
    var ops := BridgeInstall(planned);
    if ops != [] {
      assert ops == [ops[0]];
      ApplyOne(now, ops[0], guard);
    } else {
      NothingApplied(now, guard);
    }
  }

  lemma BridgeRemovalApplies(now: Repository, planned: Repository, guard: Guard)
    requires Look(now, ClaudeFile) == Look(planned, ClaudeFile)
    ensures ApplyAll(now, BridgeRemoval(planned), guard) == Outcome(AfterBridgeRemoval(now), true)
  {
    hide Analyze, WithoutBlock;
    var ops := BridgeRemoval(planned);
    if ops != [] {
      assert ops == [ops[0]];
      ApplyOne(now, ops[0], guard);
    } else {
      NothingApplied(now, guard);
    }
  }

  function AfterSharedInstall(files: Repository, kit: Kit): Repository {
    AfterReconcile(AfterReconcile(files, Canonical, kit.canonical), ProjectSkill, kit.projectSkill)
  }

  function AfterSharedRemoval(files: Repository): Repository { AfterDelete(AfterDelete(files, ProjectSkill), Canonical) }

  function AfterInstallCodex(files: Repository, kit: Kit): Repository {
    AfterReconcile(AfterSharedInstall(files, kit), CodexFile, kit.codexFile)
  }

  function AfterInstallClaude(files: Repository, kit: Kit): Repository {
    AfterReconcile(AfterBridgeInstall(AfterSharedInstall(files, kit)), ClaudeSkill, kit.claudeSkill)
  }

  lemma SharedInstallApplies(files: Repository, kit: Kit, guard: Guard)
    ensures ApplyAll(files, SharedInstall(files, kit), guard) == Outcome(AfterSharedInstall(files, kit), true)
  {
    hide ManagedAt, Equivalent, ApplyAll, Reconcile, GuardAdmits;
    ReconcileApplies(files, files, Canonical, kit.canonical, guard);
    ReconcileApplies(AfterReconcile(files, Canonical, kit.canonical), files, ProjectSkill, kit.projectSkill, guard);
    ApplyConcat(files, Reconcile(files, Canonical, kit.canonical), Reconcile(files, ProjectSkill, kit.projectSkill), guard);
  }

  lemma InstallCodexApplies(files: Repository, kit: Kit)
    ensures ApplyAll(files, InstallCodex(files, kit), NoGuard) == Outcome(AfterInstallCodex(files, kit), true)
  {
    hide ManagedAt, Equivalent, ApplyAll, Reconcile, GuardAdmits, SharedInstall;
    SharedInstallApplies(files, kit, NoGuard);
    ReconcileApplies(AfterSharedInstall(files, kit), files, CodexFile, kit.codexFile, NoGuard);
    ApplyConcat(files, SharedInstall(files, kit), Reconcile(files, CodexFile, kit.codexFile), NoGuard);
  }

  lemma InstallClaudeApplies(files: Repository, kit: Kit)
    ensures ApplyAll(files, InstallClaude(files, kit), NoGuard) == Outcome(AfterInstallClaude(files, kit), true)
  {
    hide ManagedAt, Equivalent, ApplyAll, Reconcile, GuardAdmits, SharedInstall, BridgeInstall, Analyze, WithBlock, BLOCK, OWN_FILE;
    var shared := AfterSharedInstall(files, kit);
    SharedInstallApplies(files, kit, NoGuard);
    BridgeInstallApplies(shared, files, NoGuard);
    ApplyConcat(files, SharedInstall(files, kit), BridgeInstall(files), NoGuard);
    ReconcileApplies(AfterBridgeInstall(shared), files, ClaudeSkill, kit.claudeSkill, NoGuard);
    ApplyConcat(files, SharedInstall(files, kit) + BridgeInstall(files), Reconcile(files, ClaudeSkill, kit.claudeSkill), NoGuard);
  }

  /** The guard of a shared removal looks at two files that the removal itself leaves alone. */
  lemma SharedRemovalApplies(now: Repository, planned: Repository, guard: Guard)
    requires Look(now, ProjectSkill) == Look(planned, ProjectSkill) && Look(now, Canonical) == Look(planned, Canonical)
    requires guard.CodexGuard? ==> !UserOwnedHost(now) && !ClaudeNeedsShared(now)
    requires guard.ClaudeGuard? ==> CodexFile !in now && !ClaudeNeedsShared(now)
    ensures ApplyAll(now, SharedRemoval(planned), guard) == Outcome(AfterSharedRemoval(now), true)
  {
    hide ManagedAt, ApplyAll, DeleteIfManaged, Analyze;
    DeleteApplies(now, planned, ProjectSkill, guard);
    var next := AfterDelete(now, ProjectSkill);
    assert Look(next, ClaudeFile) == Look(now, ClaudeFile) && Look(next, CodexFile) == Look(now, CodexFile);
    DeleteApplies(next, planned, Canonical, guard);
    ApplyConcat(now, DeleteIfManaged(planned, ProjectSkill), DeleteIfManaged(planned, Canonical), guard);
  }

  function AfterUninstallCodex(files: Repository): Repository {
    var gone := AfterDelete(files, CodexFile);
    if ClaudeNeedsShared(files) || UserOwnedHost(files) then gone else AfterSharedRemoval(gone)
  }

  /** Uninstalling Codex from an unchanged repository never stops. */
  lemma UninstallCodexApplies(files: Repository)
    ensures ApplyAll(files, UninstallCodex(files), CodexGuard) == Outcome(AfterUninstallCodex(files), true)
  {
    hide ManagedAt, ApplyAll, DeleteIfManaged, Analyze, SharedRemoval, AfterSharedRemoval;
    DeleteApplies(files, files, CodexFile, CodexGuard);
    var gone := AfterDelete(files, CodexFile);
    assert Look(gone, ClaudeFile) == Look(files, ClaudeFile);
    if ClaudeNeedsShared(files) || UserOwnedHost(files) {
      assert UninstallCodex(files) == DeleteIfManaged(files, CodexFile);
    } else {
      SharedRemovalApplies(gone, files, CodexGuard);
      ApplyConcat(files, DeleteIfManaged(files, CodexFile), SharedRemoval(files), CodexGuard);
    }
  }

  function AfterClaudeRemoval(files: Repository): Repository { AfterBridgeRemoval(AfterDelete(files, ClaudeSkill)) }

  lemma ClaudeRemovalApplies(files: Repository)
    ensures ApplyAll(files, DeleteIfManaged(files, ClaudeSkill) + BridgeRemoval(files), ClaudeGuard) ==
            Outcome(AfterClaudeRemoval(files), true)
  {
    hide ManagedAt, ApplyAll, DeleteIfManaged, Analyze, BridgeRemoval, WithoutBlock;
    DeleteApplies(files, files, ClaudeSkill, ClaudeGuard);
    BridgeRemovalApplies(AfterDelete(files, ClaudeSkill), files, ClaudeGuard);
    ApplyConcat(files, DeleteIfManaged(files, ClaudeSkill), BridgeRemoval(files), ClaudeGuard);
  }

  lemma RemovalLooks(files: Repository)
    ensures var r := AfterClaudeRemoval(files);
            && Look(r, Canonical) == Look(files, Canonical) && Look(r, ProjectSkill) == Look(files, ProjectSkill)
            && Look(r, CodexFile) == Look(files, CodexFile)
  {
    hide ManagedAt, Analyze, WithoutBlock;
  }

  /** Uninstalling Claude from an unchanged repository works exactly when no shared file is to go
      or what is left of CLAUDE.md neither imports the guidance nor carries a marker. Otherwise
      the guard stops the plan half way. */
  lemma UninstallClaudeApplies(files: Repository)
    ensures var kept := AfterClaudeRemoval(files);
            var outcome := ApplyAll(files, UninstallClaude(files), ClaudeGuard);
            if HostNeedsShared(files) then outcome == Outcome(kept, true)
            else if !ClaudeNeedsShared(kept) then outcome == Outcome(AfterSharedRemoval(kept), true)
            else outcome.ok <==> SharedRemoval(files) == []
  {
    hide ManagedAt, ApplyAll, DeleteIfManaged, Analyze, BridgeRemoval, WithoutBlock, SharedRemoval, AfterSharedRemoval, AfterClaudeRemoval;
    ClaudeRemovalApplies(files);
    RemovalLooks(files);
    var front := DeleteIfManaged(files, ClaudeSkill) + BridgeRemoval(files);
    var kept := AfterClaudeRemoval(files);
    if HostNeedsShared(files) {
      assert UninstallClaude(files) == front;
    } else {
      assert Look(files, CodexFile) == None;
      ApplyConcat(files, front, SharedRemoval(files), ClaudeGuard);
      if !ClaudeNeedsShared(kept) {
        SharedRemovalApplies(kept, files, ClaudeGuard);
      } else {
        StoppedAtFirst(kept, files);
      }
    }
  }

  lemma StoppedAtFirst(now: Repository, planned: Repository)
    requires ClaudeNeedsShared(now)
    ensures ApplyAll(now, SharedRemoval(planned), ClaudeGuard).ok <==> SharedRemoval(planned) == []
  {
    hide ManagedAt, Analyze, ClaudeNeedsShared;
    var ops := SharedRemoval(planned);
    assert ops != [] ==> IsSharedDelete(ops[0]);
  }

  /** CLAUDE.md holds the block in a text of the user's own, and that text, the block cut out,
      still has a marker or an import line. */
  ghost predicate MentionsBesideBlock(files: Repository) {
    ClaudeFile in files &&
    match Analyze(Some(files[ClaudeFile]))
    case ManagedBridge(start, end, owned, _) =>
      !owned && start <= end <= |files[ClaudeFile]| && Mentions(WithoutBlock(files[ClaudeFile], start, end))
    case _ => false
  }

  ghost predicate Mentions(text: JsString) { !Free(text, START) || !Free(text, END) || DirectImport(text) }

  /** A shared file is to go, but the user's text beside the block still asks for it. */
  ghost predicate Stranding(files: Repository) {
    !HostNeedsShared(files) && (Owned(files, Canonical) || Owned(files, ProjectSkill)) && MentionsBesideBlock(files)
  }

  /** That is exactly when the Claude removal stops half way. */
  lemma UninstallClaudeStops(files: Repository)
    ensures ApplyAll(files, UninstallClaude(files), ClaudeGuard).ok <==> !Stranding(files)
  {
    hide ManagedAt, ApplyAll, Analyze, BridgeRemoval, WithoutBlock, AfterSharedRemoval, Mentions, UninstallClaude, AfterDelete;
    hide IMPORT, START, END;
    UninstallClaudeApplies(files);
    DeleteLooks(files, ClaudeSkill);
    var next := AfterDelete(files, ClaudeSkill);
    assert Look(next, ClaudeFile) == Look(files, ClaudeFile);
    if !HostNeedsShared(files) { KeptMentions(next); }
  }

  lemma KeptMentions(files: Repository)
    requires !Analyze(Look(files, ClaudeFile)).ImportedDirectly? && !Analyze(Look(files, ClaudeFile)).ConflictingBridge?
    ensures ClaudeNeedsShared(AfterBridgeRemoval(files)) <==> MentionsBesideBlock(files)
  {
    hide Analyze, WithoutBlock, Mentions;
    AbsentIffNone(None);
    AbsentIffNone(Look(files, ClaudeFile));
    AbsentIffNone(Look(AfterBridgeRemoval(files), ClaudeFile));
    if ClaudeFile in files {
      ManagedIsInside(files[ClaudeFile]);
      var b := Analyze(Some(files[ClaudeFile]));
      if b.ManagedBridge? { MentionsIff(WithoutBlock(files[ClaudeFile], b.start, b.end)); }
    }
  }

  lemma MentionsIff(text: JsString)
    ensures Mentions(text) <==> !Analyze(Some(text)).UnmanagedBridge?
  {
    hide Analyze, Free, DirectImport, START, END;
    UnmanagedIff(text);
  }

  // ----- both clients, in either order

  /** No AGENTS.md, nothing of the user's where AI Office writes, and no managed block in CLAUDE.md
      yet. */
  ghost predicate Fresh(files: Repository) {
    && CodexFile !in files
    && (forall s :: s in {Canonical, ProjectSkill, ClaudeSkill} && s in files ==> ManagedAt(s, files[s]))
    && !Analyze(Look(files, ClaudeFile)).ManagedBridge?
  }

  /** CLAUDE.md itself asks for the shared files: the user imports them, or the markers in it are
      malformed. No plan of either client touches it then. */
  predicate KeepsShared(files: Repository) {
    var bridge := Analyze(Look(files, ClaudeFile));
    bridge.ImportedDirectly? || bridge.ConflictingBridge?
  }

  ghost predicate Owned(files: Repository, spot: Spot) { spot in files && ManagedAt(spot, files[spot]) }

  /** What installing Claude makes of CLAUDE.md. */
  function Bridged(files: Repository): JsString {
    if ClaudeFile !in files then OWN_FILE
    else if KeepsShared(files) then files[ClaudeFile]
    else WithBlock(files[ClaudeFile])
  }

  /** What comes back of CLAUDE.md: nothing of one that was absent, blank or only the generated
      title, all of one that no plan touches, and otherwise the right-trimmed text. */
  function Restored(files: Repository): Option<JsString> {
    if ClaudeFile !in files then None
    else if KeepsShared(files) then Some(files[ClaudeFile])
    else if TrimEnd(files[ClaudeFile]) == [] || TrimEnd(files[ClaudeFile]) == TITLE then None
    else Some(TrimEnd(files[ClaudeFile]) + [LF])
  }

  ghost predicate SameElsewhere(a: Repository, b: Repository) { forall p :: Look(a, Elsewhere(p)) == Look(b, Elsewhere(p)) }

  ghost predicate BothInstalled(start: Repository, now: Repository) {
    && Owned(now, Canonical) && Owned(now, ProjectSkill) && Owned(now, CodexFile) && Owned(now, ClaudeSkill)
    && Look(now, ClaudeFile) == Some(Bridged(start)) && SameElsewhere(start, now)
  }

  lemma ReconcileOwns(files: Repository, spot: Spot, next: JsString)
    requires ManagedAt(spot, next) && (spot in files ==> ManagedAt(spot, files[spot]))
    ensures Owned(AfterReconcile(files, spot, next), spot)
    ensures forall s :: s != spot ==> Look(AfterReconcile(files, spot, next), s) == Look(files, s)
  {
    hide ManagedAt, Equivalent;
  }

  lemma SharedInstallOwns(files: Repository, kit: Kit)
    requires KitOk(kit) && forall s :: s in {Canonical, ProjectSkill} && s in files ==> ManagedAt(s, files[s])
    ensures var r := AfterSharedInstall(files, kit);
            && Owned(r, Canonical) && Owned(r, ProjectSkill)
            && forall s :: s != Canonical && s != ProjectSkill ==> Look(r, s) == Look(files, s)
  {
    hide ManagedAt, AfterReconcile;
    ReconcileOwns(files, Canonical, kit.canonical);
    var next := AfterReconcile(files, Canonical, kit.canonical);
    assert Look(next, ProjectSkill) == Look(files, ProjectSkill);
    ReconcileOwns(next, ProjectSkill, kit.projectSkill);
    assert Look(AfterReconcile(next, ProjectSkill, kit.projectSkill), Canonical) == Look(next, Canonical);
  }

  lemma InstallCodexOwns(files: Repository, kit: Kit)
    requires KitOk(kit) && forall s :: s in {Canonical, ProjectSkill, CodexFile} && s in files ==> ManagedAt(s, files[s])
    ensures var r := AfterInstallCodex(files, kit);
            && Owned(r, Canonical) && Owned(r, ProjectSkill) && Owned(r, CodexFile)
            && forall s :: s != Canonical && s != ProjectSkill && s != CodexFile ==> Look(r, s) == Look(files, s)
  {
    hide ManagedAt, AfterReconcile, AfterSharedInstall;
    SharedInstallOwns(files, kit);
    var shared := AfterSharedInstall(files, kit);
    assert Look(shared, CodexFile) == Look(files, CodexFile);
    ReconcileOwns(shared, CodexFile, kit.codexFile);
    var r := AfterReconcile(shared, CodexFile, kit.codexFile);
    assert Look(r, Canonical) == Look(shared, Canonical) && Look(r, ProjectSkill) == Look(shared, ProjectSkill);
  }

  lemma InstallClaudeOwns(files: Repository, kit: Kit)
    requires KitOk(kit) && forall s :: s in {Canonical, ProjectSkill, ClaudeSkill} && s in files ==> ManagedAt(s, files[s])
    requires !Analyze(Look(files, ClaudeFile)).ManagedBridge?
    ensures var r := AfterInstallClaude(files, kit);
            && Owned(r, Canonical) && Owned(r, ProjectSkill) && Owned(r, ClaudeSkill)
            && Look(r, ClaudeFile) == Some(Bridged(files))
            && Look(r, CodexFile) == Look(files, CodexFile) && SameElsewhere(files, r)
  {
    hide ManagedAt, AfterReconcile, AfterSharedInstall, Analyze, WithBlock, OWN_FILE, BLOCK, TITLE, TrimEnd;
    SharedInstallOwns(files, kit);
    var shared := AfterSharedInstall(files, kit);
    assert Look(shared, ClaudeFile) == Look(files, ClaudeFile) && Look(shared, ClaudeSkill) == Look(files, ClaudeSkill);
    assert Look(shared, CodexFile) == Look(files, CodexFile);
    AbsentIffNone(Look(files, ClaudeFile));
    var bridged := AfterBridgeInstall(shared);
    assert Look(bridged, ClaudeFile) == Some(Bridged(files));
    assert forall s :: s != ClaudeFile ==> Look(bridged, s) == Look(shared, s);
    assert Look(bridged, ClaudeSkill) == Look(shared, ClaudeSkill);
    ReconcileOwns(bridged, ClaudeSkill, kit.claudeSkill);
    var r := AfterReconcile(bridged, ClaudeSkill, kit.claudeSkill);
    assert Look(r, Canonical) == Look(bridged, Canonical) && Look(r, ProjectSkill) == Look(bridged, ProjectSkill);
    assert Look(bridged, Canonical) == Look(shared, Canonical) && Look(bridged, ProjectSkill) == Look(shared, ProjectSkill);
    assert Look(r, ClaudeFile) == Look(bridged, ClaudeFile) && Look(r, CodexFile) == Look(bridged, CodexFile);
    forall p
      ensures Look(files, Elsewhere(p)) == Look(r, Elsewhere(p))
    {
      assert Look(r, Elsewhere(p)) == Look(bridged, Elsewhere(p)) == Look(shared, Elsewhere(p));
    }
  }

  lemma InstallBothOwns(start: Repository, kit: Kit)
    requires KitOk(kit) && Fresh(start)
    ensures BothInstalled(start, AfterInstallClaude(AfterInstallCodex(start, kit), kit))
    ensures BothInstalled(start, AfterInstallCodex(AfterInstallClaude(start, kit), kit))
  {
    hide ManagedAt, AfterInstallCodex, AfterInstallClaude, Analyze, WithBlock, OWN_FILE, BLOCK, TITLE, TrimEnd;
    InstallCodexOwns(start, kit);
    var codex := AfterInstallCodex(start, kit);
    assert Look(codex, ClaudeFile) == Look(start, ClaudeFile) && Look(codex, ClaudeSkill) == Look(start, ClaudeSkill);
    assert ClaudeFile in codex ==> codex[ClaudeFile] == start[ClaudeFile];
    InstallClaudeOwns(codex, kit);
    InstallClaudeOwns(start, kit);
    var claude := AfterInstallClaude(start, kit);
    assert Look(claude, CodexFile) == Look(start, CodexFile);
    InstallCodexOwns(claude, kit);
    var both := AfterInstallCodex(claude, kit);
    assert Look(both, ClaudeFile) == Look(claude, ClaudeFile) && Look(both, ClaudeSkill) == Look(claude, ClaudeSkill);
  }

  /** Taking the bridge out gives the user's text back. A CLAUDE.md that keeps the shared files
      has no bridge and stays. */
  lemma BridgeComesOut(start: Repository, now: Repository)
    requires !Analyze(Look(start, ClaudeFile)).ManagedBridge?
    requires Look(now, ClaudeFile) == Some(Bridged(start))
    ensures ClaudeNeedsShared(now) && (KeepsShared(now) <==> KeepsShared(start))
    ensures var r := AfterBridgeRemoval(now);
            && Look(r, ClaudeFile) == Restored(start) && (ClaudeNeedsShared(r) <==> KeepsShared(start))
            && !Analyze(Look(r, ClaudeFile)).ManagedBridge?
            && forall s :: s != ClaudeFile ==> Look(r, s) == Look(now, s)
  {
    hide Analyze, WithBlock, OWN_FILE, BLOCK, TITLE, TrimEnd, WithoutBlock;
    AbsentIffNone(Look(start, ClaudeFile));
    AbsentIffNone(None);
    if ClaudeFile !in start {
      GeneratedFileIsOwn();
      OwnFileIsLongEnough();
    } else if !KeepsShared(start) {
      BlockComesOut(start[ClaudeFile]);
    }
  }

  lemma OwnFileIsLongEnough()
    ensures |OWN_FILE| >= 168
  {
  }

  /** Both clients are gone. The shared files went too, unless CLAUDE.md itself asks for them. */
  ghost predicate BothGone(start: Repository, now: Repository) {
    && CodexFile !in now && ClaudeSkill !in now
    && (if KeepsShared(start) then Owned(now, Canonical) && Owned(now, ProjectSkill)
        else Canonical !in now && ProjectSkill !in now)
    && Look(now, ClaudeFile) == Restored(start) && SameElsewhere(start, now)
  }

  /** Nothing in the repository is AI Office's, no file and no block in CLAUDE.md. */
  ghost predicate NothingOwned(files: Repository) {
    && (forall s :: !Owned(files, s)) && !Analyze(Look(files, ClaudeFile)).ManagedBridge?
  }

  lemma DeleteLooks(files: Repository, spot: Spot)
    ensures var r := AfterDelete(files, spot);
            && (forall s :: s != spot ==> Look(r, s) == Look(files, s))
            && (Owned(files, spot) ==> spot !in r)
  {
    hide ManagedAt;
  }

  lemma SharedRemovalLooks(files: Repository)
    requires Owned(files, Canonical) && Owned(files, ProjectSkill)
    ensures var r := AfterSharedRemoval(files);
            && Canonical !in r && ProjectSkill !in r
            && forall s :: s != Canonical && s != ProjectSkill ==> Look(r, s) == Look(files, s)
  {
    hide ManagedAt;
  }

  /** Codex first: its own file goes, everything Claude needs stays. */
  lemma CodexGoesFirst(start: Repository, now: Repository)
    requires Fresh(start) && BothInstalled(start, now)
    ensures var r := AfterUninstallCodex(now);
            && CodexFile !in r && (forall s :: s != CodexFile ==> Look(r, s) == Look(now, s))
            && Owned(r, Canonical) && Owned(r, ProjectSkill)
  {
    hide ManagedAt, Analyze, Bridged, Restored, AfterBridgeRemoval, AfterDelete, AfterSharedRemoval, KeepsShared;
    BridgeComesOut(start, now);
    DeleteLooks(now, CodexFile);
    var r := AfterDelete(now, CodexFile);
    assert Look(r, Canonical) == Look(now, Canonical) && Look(r, ProjectSkill) == Look(now, ProjectSkill);
  }

  /** Claude's own files go and CLAUDE.md is the user's again; every other file stays. */
  lemma ClaudeFilesGo(start: Repository, now: Repository)
    requires Fresh(start) && Owned(now, ClaudeSkill) && Look(now, ClaudeFile) == Some(Bridged(start))
    ensures var r := AfterClaudeRemoval(now);
            && ClaudeSkill !in r && Look(r, ClaudeFile) == Restored(start) && (ClaudeNeedsShared(r) <==> KeepsShared(start))
            && forall s :: s != ClaudeSkill && s != ClaudeFile ==> Look(r, s) == Look(now, s)
  {
    hide ManagedAt, Analyze, Bridged, Restored, AfterBridgeRemoval, AfterDelete, KeepsShared, ClaudeNeedsShared;
    DeleteLooks(now, ClaudeSkill);
    var next := AfterDelete(now, ClaudeSkill);
    assert Look(next, ClaudeFile) == Look(now, ClaudeFile);
    BridgeComesOut(start, next);
    var r := AfterBridgeRemoval(next);
    assert Look(r, ClaudeSkill) == Look(next, ClaudeSkill);
    forall s | s != ClaudeSkill && s != ClaudeFile
      ensures Look(r, s) == Look(now, s)
    {
      assert Look(r, s) == Look(next, s);
    }
  }

  /** Claude first: everything Codex needs stays. */
  lemma ClaudeGoesFirst(start: Repository, now: Repository)
    requires Fresh(start) && BothInstalled(start, now)
    ensures HostNeedsShared(now)
    ensures var r := AfterClaudeRemoval(now);
            && ClaudeSkill !in r && Look(r, ClaudeFile) == Restored(start) && (ClaudeNeedsShared(r) <==> KeepsShared(start))
            && Owned(r, Canonical) && Owned(r, ProjectSkill) && Owned(r, CodexFile) && SameElsewhere(start, r)
  {
    hide ManagedAt, Analyze, Bridged, Restored, AfterClaudeRemoval, KeepsShared, ClaudeNeedsShared;
    ClaudeFilesGo(start, now);
    var r := AfterClaudeRemoval(now);
    assert Look(r, Canonical) == Look(now, Canonical) && Look(r, ProjectSkill) == Look(now, ProjectSkill);
    assert Look(r, CodexFile) == Look(now, CodexFile);
    forall p
      ensures Look(start, Elsewhere(p)) == Look(r, Elsewhere(p))
    {
      assert Look(r, Elsewhere(p)) == Look(now, Elsewhere(p));
    }
  }

  lemma CodexGoesSecond(start: Repository, now: Repository)
    requires Fresh(start) && BothInstalled(start, now)
    ensures BothGone(start, AfterUninstallCodex(AfterClaudeRemoval(now)))
  {
    hide ManagedAt, Analyze, Bridged, Restored, AfterClaudeRemoval, AfterDelete, AfterSharedRemoval, KeepsShared, ClaudeNeedsShared;
    ClaudeGoesFirst(start, now);
    var r := AfterClaudeRemoval(now);
    DeleteLooks(r, CodexFile);
    var gone := AfterDelete(r, CodexFile);
    assert Look(gone, Canonical) == Look(r, Canonical) && Look(gone, ProjectSkill) == Look(r, ProjectSkill);
    SharedRemovalLooks(gone);
    var last := AfterUninstallCodex(r);
    assert last == if KeepsShared(start) then gone else AfterSharedRemoval(gone);
    assert Look(last, CodexFile) == Look(gone, CodexFile) && Look(last, ClaudeSkill) == Look(gone, ClaudeSkill) == Look(r, ClaudeSkill);
    assert Look(last, ClaudeFile) == Look(gone, ClaudeFile) == Look(r, ClaudeFile);
    forall p
      ensures Look(start, Elsewhere(p)) == Look(last, Elsewhere(p))
    {
      assert Look(last, Elsewhere(p)) == Look(gone, Elsewhere(p)) == Look(r, Elsewhere(p));
    }
  }

  /** Claude second, where Codex has left `now`. */
  lemma ClaudeGoesSecond(start: Repository, both: Repository, now: Repository)
    requires Fresh(start) && BothInstalled(start, both) && CodexFile !in now
    requires forall s :: s != CodexFile ==> Look(now, s) == Look(both, s)
    ensures var kept := AfterClaudeRemoval(now);
            && (HostNeedsShared(now) <==> KeepsShared(start)) && (ClaudeNeedsShared(kept) <==> KeepsShared(start))
            && BothGone(start, if KeepsShared(start) then kept else AfterSharedRemoval(kept))
  {
    hide ManagedAt, Analyze, Bridged, Restored, AfterClaudeRemoval, AfterDelete, AfterSharedRemoval, ClaudeNeedsShared;
    assert Look(now, ClaudeFile) == Look(both, ClaudeFile) && Look(now, ClaudeSkill) == Look(both, ClaudeSkill);
    assert Look(now, Canonical) == Look(both, Canonical) && Look(now, ProjectSkill) == Look(both, ProjectSkill);
    BridgeComesOut(start, now);
    ClaudeFilesGo(start, now);
    var kept := AfterClaudeRemoval(now);
    assert Look(kept, Canonical) == Look(now, Canonical) && Look(kept, ProjectSkill) == Look(now, ProjectSkill);
    assert Look(kept, CodexFile) == Look(now, CodexFile);
    SharedRemovalLooks(kept);
    var last := if KeepsShared(start) then kept else AfterSharedRemoval(kept);
    assert Look(last, CodexFile) == Look(kept, CodexFile) && Look(last, ClaudeSkill) == Look(kept, ClaudeSkill);
    assert Look(last, ClaudeFile) == Look(kept, ClaudeFile);
    forall p
      ensures Look(start, Elsewhere(p)) == Look(last, Elsewhere(p))
    {
      assert Look(last, Elsewhere(p)) == Look(kept, Elsewhere(p)) == Look(now, Elsewhere(p)) == Look(both, Elsewhere(p));
    }
  }

  function Installing(files: Repository, kit: Kit, codex: bool): Outcome {
    ApplyAll(files, if codex then InstallCodex(files, kit) else InstallClaude(files, kit), NoGuard)
  }

  function Uninstalling(files: Repository, codex: bool): Outcome {
    if codex then ApplyAll(files, UninstallCodex(files), CodexGuard) else ApplyAll(files, UninstallClaude(files), ClaudeGuard)
  }

  /** Both clients installed and uninstalled, each time in either order: every plan applies, and
      the shared files survive the first uninstall. After the second, CLAUDE.md is as `Restored`
      says, and nothing of AI Office's is left exactly when CLAUDE.md did not itself ask for the
      shared files. */
  lemma EitherOrder(start: Repository, kit: Kit, codexInFirst: bool, codexOutFirst: bool)
    requires KitOk(kit) && Fresh(start)
    ensures var one := Installing(start, kit, codexInFirst);
            var two := Installing(one.files, kit, !codexInFirst);
            var three := Uninstalling(two.files, codexOutFirst);
            var four := Uninstalling(three.files, !codexOutFirst);
            && one.ok && two.ok && three.ok && four.ok
            && BothInstalled(start, two.files)
            && Owned(three.files, Canonical) && Owned(three.files, ProjectSkill)
            && BothGone(start, four.files) && (NothingOwned(four.files) <==> !KeepsShared(start))
  {
    hide ManagedAt, Analyze, AfterInstallCodex, AfterInstallClaude, AfterUninstallCodex, AfterClaudeRemoval, AfterSharedRemoval;
    hide ApplyAll, InstallCodex, InstallClaude, UninstallCodex, UninstallClaude, BothInstalled, BothGone, HostNeedsShared;
    hide ClaudeNeedsShared, KeepsShared, NothingOwned;
    InstallCodexApplies(start, kit);
    InstallClaudeApplies(start, kit);
    InstallClaudeApplies(AfterInstallCodex(start, kit), kit);
    InstallCodexApplies(AfterInstallClaude(start, kit), kit);
    InstallBothOwns(start, kit);
    var two := if codexInFirst then AfterInstallClaude(AfterInstallCodex(start, kit), kit)
               else AfterInstallCodex(AfterInstallClaude(start, kit), kit);
    if codexOutFirst {
      UninstallCodexApplies(two);
      CodexGoesFirst(start, two);
      ClaudeGoesSecond(start, two, AfterUninstallCodex(two));
      UninstallClaudeApplies(AfterUninstallCodex(two));
    } else {
      UninstallClaudeApplies(two);
      ClaudeGoesFirst(start, two);
      UninstallCodexApplies(AfterClaudeRemoval(two));
      CodexGoesSecond(start, two);
    }
    GoneIsNothing(start, Uninstalling(Uninstalling(two, codexOutFirst).files, !codexOutFirst).files);
  }

  lemma GoneIsNothing(start: Repository, now: Repository)
    requires Fresh(start) && BothGone(start, now)
    ensures NothingOwned(now) <==> !KeepsShared(start)
  {
    hide Analyze, TITLE, TrimEnd;
    if KeepsShared(start) {
      assert Owned(now, Canonical);
    } else {
      hide HasSkillMarker;
      AbsentIffNone(None);
      AbsentIffNone(Look(start, ClaudeFile));
      if ClaudeFile in start { RestoredIsUnmanaged(start[ClaudeFile]); }
    }
  }

  // ----- texts that carry their own markers exist

  function SkillText(marker: JsString): JsString { SKILL_OPENING + Js("---") + [LF] + ([LF] + marker + [LF]) }

  lemma {:induction false} FirstBreak(s: JsString, m: JsString, i: nat, k: nat)
    requires i <= k && At(s, k, m) && m != [] && m[0] == LF && forall j :: i <= j < k && j < |s| ==> s[j] != LF
    ensures IndexFrom(s, m, i) == Some(k)
    decreases k - i
  {
    if i < k { FirstBreak(s, m, i + 1, k); }
  }

  lemma OpeningIsPlain()
    ensures |SKILL_OPENING| == 20 && SKILL_OPENING[19] == LF && CR !in SKILL_OPENING
    ensures forall j :: 4 <= j < 19 ==> SKILL_OPENING[j] != LF
  {
    var name, value := Js("name: "), Js("ai-office");
    assert SKILL_OPENING == (Js("---") + [LF]) + (name + value) + [LF];
    assert OneLine(Js("---")) && OneLine(name) && OneLine(value);
    assert forall j :: 4 <= j < 19 ==> SKILL_OPENING[j] == (name + value)[j - 4];
  }

  lemma SkillTextIsMarked(marker: JsString)
    requires CR !in marker
    ensures HasSkillMarker(SkillText(marker), marker)
  {
    hide SKILL_OPENING, NormalizeEol;
    OpeningIsPlain();
    var dashes, back := Js("---") + [LF], [LF] + marker + [LF];
    var s := SkillText(marker);
    assert OneLine(Js("---"));
    NormalizePlain(s);
    assert s == SKILL_OPENING + dashes + back && |dashes| == 4;
    assert s[..20] == SKILL_OPENING && s[24..] == back;
    assert s[19..24] == [LF] + dashes == FRONTMATTER_END;
    assert forall j :: 4 <= j < 19 ==> s[j] == SKILL_OPENING[j];
    FirstBreak(s, FRONTMATTER_END, 4, 19);
  }

  lemma MarkersArePlain()
    ensures CR !in PROJECT_SKILL_MARKER && CR !in CLAUDE_SKILL_MARKER
  {
    var opening, colon, back := Js("<!-- ai-office"), Js(":managed "), Js("skill v1 -->");
    assert OneLine(opening) && OneLine(colon) && OneLine(Js("repository-")) && OneLine(Js("claude-")) && OneLine(back);
  }

  /** The assumption on the kit can be met. */
  lemma KitsExist() returns (kit: Kit)
    ensures KitOk(kit)
  {
    hide CANONICAL_HEADER, CODEX_HEADER, LEGACY_HEADER, HasSkillMarker, PROJECT_SKILL_MARKER, CLAUDE_SKILL_MARKER, SkillText;
    kit := Kit(CANONICAL_HEADER, CODEX_HEADER, SkillText(PROJECT_SKILL_MARKER), SkillText(CLAUDE_SKILL_MARKER));
    MarkersArePlain();
    SkillTextIsMarked(PROJECT_SKILL_MARKER);
    SkillTextIsMarked(CLAUDE_SKILL_MARKER);
  }

  /** A CLAUDE.md of the user's own with nothing but the import line: both clients can be removed
      in either order, and the shared files stay. */
  lemma DirectImportKeepsShared(kit: Kit, codexInFirst: bool, codexOutFirst: bool)
    requires KitOk(kit)
    ensures var start: Repository := map[ClaudeFile := IMPORT];
            var two := Installing(Installing(start, kit, codexInFirst).files, kit, !codexInFirst).files;
            var four := Uninstalling(Uninstalling(two, codexOutFirst).files, !codexOutFirst);
            four.ok && Owned(four.files, Canonical) && Owned(four.files, ProjectSkill) && !NothingOwned(four.files)
  {
    hide Analyze, ManagedAt, Installing, Uninstalling, IMPORT, NothingOwned, BothInstalled;
    var start: Repository := map[ClaudeFile := IMPORT];
    ImportAlone();
    assert Look(start, ClaudeFile) == Some(IMPORT);
    EitherOrder(start, kit, codexInFirst, codexOutFirst);
  }

  lemma ImportAlone()
    ensures Analyze(Some(IMPORT)).ImportedDirectly?
  {
    MarkersNonEmpty();
    ShortIsFree(IMPORT, START);
    ShortIsFree(IMPORT, END);
    NoMatch(IMPORT, START, 0);
    NoMatch(IMPORT, END, 0);
    assert IMPORT[0..13] == IMPORT && IMPORT[13..13] == [];
    assert WhiteUntil(IMPORT, 13, 13);
    assert ImportLineAt(IMPORT, 0);
  }

  // ----- whose files are touched

  /** The operation creates where there is nothing, or changes what it saw and owns. */
  predicate Careful(files: Repository, op: Operation) {
    && !op.spot.Elsewhere?
    && (op.Create? ==> op.spot !in files)
    && (!op.Create? ==>
          && op.spot in files && op.expected == files[op.spot]
          && if op.spot == ClaudeFile then Analyze(Some(files[ClaudeFile])).UnmanagedBridge? || Analyze(Some(files[ClaudeFile])).ManagedBridge?
             else ManagedAt(op.spot, files[op.spot]))
  }

  lemma SpotIsCareful(files: Repository, spot: Spot, next: JsString, op: Operation)
    requires spot in {Canonical, CodexFile, ProjectSkill, ClaudeSkill}
    requires op in Reconcile(files, spot, next) || op in DeleteIfManaged(files, spot)
    ensures Careful(files, op)
  {
    hide ManagedAt, Equivalent, Analyze;
  }

  lemma BridgeIsCareful(files: Repository, op: Operation)
    requires op in BridgeInstall(files) || op in BridgeRemoval(files)
    ensures Careful(files, op)
  {
    hide ManagedAt, Analyze, WithBlock, WithoutBlock, OWN_FILE, BLOCK;
    AbsentIffNone(Look(files, ClaudeFile));
  }

  /** No plan of either client changes or deletes a file that is not AI Office's, CLAUDE.md's
      managed block aside; files are created only where there is none. */
  lemma OnlyOwnFilesAreTouched(files: Repository, kit: Kit, op: Operation)
    requires
      || op in InstallCodex(files, kit) || op in InstallClaude(files, kit)
      || op in UninstallCodex(files) || op in UninstallClaude(files)
    ensures Careful(files, op)
  {
    hide Reconcile, DeleteIfManaged, BridgeInstall, BridgeRemoval, Careful, Analyze, ManagedAt;
    if op in BridgeInstall(files) || op in BridgeRemoval(files) {
      BridgeIsCareful(files, op);
    } else if op in Reconcile(files, Canonical, kit.canonical) || op in DeleteIfManaged(files, Canonical) {
      SpotIsCareful(files, Canonical, kit.canonical, op);
    } else if op in Reconcile(files, ProjectSkill, kit.projectSkill) || op in DeleteIfManaged(files, ProjectSkill) {
      SpotIsCareful(files, ProjectSkill, kit.projectSkill, op);
    } else if op in Reconcile(files, CodexFile, kit.codexFile) || op in DeleteIfManaged(files, CodexFile) {
      SpotIsCareful(files, CodexFile, kit.codexFile, op);
    } else {
      SpotIsCareful(files, ClaudeSkill, kit.claudeSkill, op);
    }
  }

  lemma PlansAreCareful(files: Repository, kit: Kit)
    ensures forall op :: op in InstallCodex(files, kit) ==> Careful(files, op)
    ensures forall op :: op in InstallClaude(files, kit) ==> Careful(files, op)
    ensures forall op :: op in UninstallCodex(files) || op in UninstallClaude(files) ==> Careful(files, op)
  {
    hide InstallCodex, InstallClaude, UninstallCodex, UninstallClaude, Careful;
    forall op |
      || op in InstallCodex(files, kit) || op in InstallClaude(files, kit)
      || op in UninstallCodex(files) || op in UninstallClaude(files)
      ensures Careful(files, op)
    {
      OnlyOwnFilesAreTouched(files, kit, op);
    }
  }

  /** A user's own import line beside the managed block defeats the uninstall plan: once the block
      is out, the guard sees the import and stops, with CLAUDE.md already rewritten. */
  lemma ImportBesideBlockStops(canonical: JsString)
    requires ManagedAt(Canonical, canonical)
    ensures var files: Repository := map[ClaudeFile := Appended(IMPORT), Canonical := canonical];
            var outcome := Uninstalling(files, false);
            && !HostNeedsShared(files) && !outcome.ok && ClaudeNeedsShared(AfterClaudeRemoval(files))
  {
    hide ManagedAt, Analyze, ApplyAll, UninstallClaude, WithoutBlock, Appended, IMPORT, AfterDelete;
    var files: Repository := map[ClaudeFile := Appended(IMPORT), Canonical := canonical];
    ImportAppended();
    DeleteLooks(files, ClaudeSkill);
    var next := AfterDelete(files, ClaudeSkill);
    assert Look(next, ClaudeFile) == Some(Appended(IMPORT));
    assert Look(AfterBridgeRemoval(next), ClaudeFile) == Some(IMPORT + [LF]);
    UninstallClaudeApplies(files);
    assert DeleteIfManaged(files, Canonical) == [Delete(Canonical, canonical)];
    assert SharedRemoval(files) != [];
  }

  lemma ImportAppended()
    ensures Analyze(Some(Appended(IMPORT))) == ManagedBridge(15, 154, false, true)
    ensures |Appended(IMPORT)| >= 154 && WithoutBlock(Appended(IMPORT), 15, 154) == IMPORT + [LF]
    ensures Analyze(Some(IMPORT + [LF])).ImportedDirectly?
  {
    hide BLOCK, SUFFIX, Appended, WithoutBlock, NormalizeEol, Trim;
    MarkersNonEmpty();
    FixedTexts();
    ImportIsPlain();
    ShortIsFree(IMPORT, START);
    ShortIsFree(IMPORT, END);
    AppendedIsManaged(IMPORT);
    WithoutAppended(IMPORT);
    var t := IMPORT + [LF];
    ShortIsFree(t, START);
    ShortIsFree(t, END);
    NoMatch(t, START, 0);
    NoMatch(t, END, 0);
    assert t[0..13] == IMPORT;
    assert t[13..13] == [];
    assert WhiteUntil(t, 13, 13);
    assert ImportLineAt(t, 0);
  }

  lemma ImportIsPlain()
    ensures !White(IMPORT[12]) && IMPORT != TITLE && IMPORT != []
  {
    MarkersNonEmpty();
    assert Js("@AI-OFFICE.md")[12] == 'd' as int;
  }
}
