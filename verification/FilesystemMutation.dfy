/** Create, write, move and delete. Any call may fail at any moment, and a staged write may
    accept any number of bytes at a time; whatever happens, what the caller is told about the
    mutation is true of the visible tree. */
module FilesystemMutation {
  import opened Options
  import opened JsStrings
  import opened Utf
  import opened FilesystemPaths
  import opened FilesystemConstraints
  import opened FilesystemVisibility
  import opened FilesystemDisks

  datatype Fault =
    | EntryExists | NoEntry | Errno(number: nat) | WriteProgress | PreconditionFailed | NotRegular | NotADirectory
    | HardLinkDenied | SymlinkDenied | SensitivePath | InvalidPath | TooLarge | Binary | Unsupported

  datatype Certainty = DefiniteNoMutation | MutationMayHaveOccurred

  datatype Raised = Plain(fault: Fault) | Mutation(fault: Fault, certainty: Certainty)

  datatype Digest = Sha256(bytes: seq<Byte>)

  datatype Precondition =
    | Absent(path: JsString)
    | Existing(path: JsString, sha256: Digest, size: nat)

  datatype Request =
    | CreateFile(path: JsString, content: JsString)
    | WriteFile(path: JsString, content: JsString)
    | MoveFile(source: JsString, destination: JsString)
    | DeleteFile(path: JsString)
    | OtherOperation

  datatype Outcome = Done(resultHash: Digest, byteLength: nat) | Failed(fault: Fault, certainty: Certainty)

  /** What the surroundings do at one moment: make the call fail, or let it through; a write
      takes at most `count` bytes, and `id` is the next random identifier. */
  datatype Moment = Moment(failure: Option<Fault>, count: nat, id: JsString)

  const CREATED_MODE := 0x180

  function Permissions(mode: nat): nat { mode % 0x200 }

  function MutationError(e: Raised, committed: bool): Raised {
    if e.Mutation? then e else Mutation(e.fault, if committed then MutationMayHaveOccurred else DefiniteNoMutation)
  }

  predicate TextBytes(bytes: seq<Byte>) { 0 !in bytes && ValidUtf8(bytes) }

  /** The tree the request asks for. */
  ghost function Applied(request: Request, tree: SeenTree): SeenTree {
    match request
    case CreateFile(path, content) => tree[Split(path) := Contents(Inode(Utf8(content), CREATED_MODE))]
    case WriteFile(path, content) =>
      if Split(path) in tree && tree[Split(path)].Contents?
      then tree[Split(path) := Contents(Inode(Utf8(content), Permissions(tree[Split(path)].inode.mode)))]
      else tree
    case MoveFile(source, destination) =>
      if Split(source) in tree then (tree - {Split(source)})[Split(destination) := tree[Split(source)]] else tree
    case DeleteFile(path) => tree - {Split(path)}
    case OtherOperation => tree
  }

  predicate MatchesRequest(request: Request, preconditions: seq<Precondition>) {
    match request
    case CreateFile(path, _) => preconditions == [Absent(path)]
    case WriteFile(path, _) => |preconditions| == 1 && preconditions[0].Existing? && preconditions[0].path == path
    case DeleteFile(path) => |preconditions| == 1 && preconditions[0].Existing? && preconditions[0].path == path
    case MoveFile(source, destination) =>
      && |preconditions| == 2 && preconditions[0].Existing? && preconditions[0].path == source
      && preconditions[1] == Absent(destination)
    case OtherOperation => false
  }

  function RequestPaths(request: Request): seq<JsString> {
    match request
    case CreateFile(path, _) => [path]
    case WriteFile(path, _) => [path]
    case DeleteFile(path) => [path]
    case MoveFile(source, destination) => [source, destination]
    case OtherOperation => []
  }

  predicate Reachable(path: JsString, c: Effective)
    requires Complete(c)
  {
    && Normalizable(path, LimitsOf(c), false) && ClassifyVisible(path, c).Inside?
  }

  function PathFault(path: JsString, c: Effective): (f: Option<Fault>)
    requires Complete(c)
    ensures f.None? <==> Reachable(path, c)
  {
    if !Normalizable(path, LimitsOf(c), false) then Some(InvalidPath)
    else if !ClassifyVisible(path, c).Inside? then Some(SensitivePath)
    else None
  }

  lemma ReachableIsNotStaging(path: JsString, c: Effective)
    requires Complete(c) && Reachable(path, c)
    ensures path != [] && Segmented(Split(path)) && Join(Split(path)) == path && !Staging(Split(path)) && Split(path) != []
    ensures !Sensitive(path, c.deniedPaths)
  {
    JoinSplit(path);
    assert forall i :: 0 <= i < |Split(path)| ==> PortableSegment(Split(path)[i]);
    assert Segmented(Split(path));
    if Staging(Split(path)) { StagingIsSensitive(Split(path), c.deniedPaths); }
  }

  /** The parent of a reachable path can be inspected unless the root itself is denied. */
  lemma ParentIsNotSensitive(path: JsString, c: Effective)
    requires Complete(c) && Reachable(path, c) && !Sensitive([], c.deniedPaths)
    ensures Split(path) != [] && !Sensitive(Join(Parent(Split(path))), c.deniedPaths)
  {
    hide Normalizable, Sensitive, Classify;
    ReachableIsNotStaging(path, c);
    var p := Split(path);
    if Sensitive(Join(Parent(p)), c.deniedPaths) && Parent(p) != [] {
      SensitiveInherited(p, Parent(p), c.deniedPaths);
    }
  }

  predicate HoldsAbsent(path: JsString, names: Names, c: Effective)
    requires Complete(c)
  {
    && Reachable(path, c) && Split(path) !in names
    && Split(path) != [] && Parent(Split(path)) in names && names[Parent(Split(path))].Folder?
  }

  predicate ReadableFile(p: Path, names: Names, inodes: Inodes, c: Effective)
    requires Complete(c)
  {
    && p in names && names[p].RegularFile? && LinksTo(names, names[p]) <= 1 && names[p].inode < |inodes|
    && TextBytes(inodes[names[p].inode].bytes) && |inodes[names[p].inode].bytes| <= c.limits[MaxFileBytes]
  }

  predicate HoldsExisting(path: JsString, sha256: Digest, size: nat, names: Names, inodes: Inodes, c: Effective)
    requires Complete(c)
  {
    && Reachable(path, c) && ExtensionPermitted(path, c) && ReadableFile(Split(path), names, inodes, c)
    && var bytes := inodes[names[Split(path)].inode].bytes;
    && sha256 == Sha256(bytes) && |bytes| == size
  }

  predicate Holds(pre: Precondition, names: Names, inodes: Inodes, c: Effective)
    requires Complete(c)
  {
    match pre
    case Absent(path) => HoldsAbsent(path, names, c)
    case Existing(path, sha256, size) => HoldsExisting(path, sha256, size, names, inodes, c)
  }

  predicate AllHold(preconditions: seq<Precondition>, names: Names, inodes: Inodes, c: Effective)
    requires Complete(c)
  {
    forall k :: 0 <= k < |preconditions| ==> Holds(preconditions[k], names, inodes, c)
  }

  predicate Fits(content: JsString, c: Effective)
    requires Complete(c)
  {
    |Utf8(content)| <= c.limits[MaxInlineContentBytes] && |Utf8(content)| <= c.limits[MaxFileBytes]
  }

  /** A request nothing but the surroundings can refuse. */
  predicate Ready(request: Request, preconditions: seq<Precondition>, names: Names, inodes: Inodes, c: Effective)
    requires Complete(c)
  {
    && c.allowMutation && MatchesRequest(request, preconditions) && AllHold(preconditions, names, inodes, c)
    && (request.CreateFile? || request.WriteFile? ==> Fits(request.content, c))
    && !Sensitive([], c.deniedPaths)
  }

  lemma ReadyPathsAreNormal(request: Request, preconditions: seq<Precondition>, names: Names, inodes: Inodes, c: Effective)
    requires Complete(c) && MatchesRequest(request, preconditions) && AllHold(preconditions, names, inodes, c)
    ensures forall path :: path in RequestPaths(request) ==> Normalizable(path, LimitsOf(c), false)
  {
    hide Normalizable, Classify, Sensitive, ReadableFile, ExtensionPermitted;
    forall path | path in RequestPaths(request)
      ensures Normalizable(path, LimitsOf(c), false)
    {
      assert Holds(preconditions[0], names, inodes, c);
      if request.MoveFile? { assert Holds(preconditions[1], names, inodes, c); }
    }
  }

  /** The bytes a successful request reports on. */
  ghost function Subject(request: Request, tree: SeenTree): seq<Byte> {
    match request
    case CreateFile(_, content) => Utf8(content)
    case WriteFile(_, content) => Utf8(content)
    case MoveFile(source, _) => BytesAt(Split(source), tree)
    case DeleteFile(path) => BytesAt(Split(path), tree)
    case OtherOperation => []
  }

  ghost function BytesAt(p: Path, tree: SeenTree): seq<Byte> {
    if p in tree && tree[p].Contents? then tree[p].inode.bytes else []
  }

  /** A file named by a precondition that holds is there to be seen. */
  lemma HeldFileIsVisible(path: JsString, sha256: Digest, size: nat, names: Names, inodes: Inodes, c: Effective)
    requires Complete(c) && Closed(names, inodes) && HoldsExisting(path, sha256, size, names, inodes, c)
    ensures Split(path) != [] && !Staging(Split(path)) && Split(path) in Visible(names, inodes) && names[Split(path)].RegularFile?
    ensures Visible(names, inodes)[Split(path)] == Contents(inodes[names[Split(path)].inode])
    ensures sha256 == Sha256(BytesAt(Split(path), Visible(names, inodes)))
    ensures size == |BytesAt(Split(path), Visible(names, inodes))|
  {
    hide Reachable, ExtensionPermitted, TextBytes, LinksTo, Split;
    ReachableIsNotStaging(path, c);
  }

  /** Staging another file does not disturb what a precondition says. */
  lemma HoldsStill(pre: Precondition, before: Names, files: Inodes, names: Names, inodes: Inodes, temp: Path, c: Effective)
    requires Complete(c) && Closed(before, files) && |inodes| == |files| + 1 && inodes[..|files|] == files
    requires Staging(temp) && names == before[temp := RegularFile(|files|)] && temp !in before
    requires Holds(pre, before, files, c)
    ensures Holds(pre, names, inodes, c)
  {
    hide Reachable, ExtensionPermitted, TextBytes, Sensitive, Join;
    assert Split(pre.path) != temp by { ReachableIsNotStaging(pre.path, c); }
    if pre.Existing? {
      var name := before[Split(pre.path)];
      assert inodes[name.inode] == inodes[..|files|][name.inode];
      assert (set p | p in names && names[p] == name) == set p | p in before && before[p] == name;
    } else {
      ReachableIsNotStaging(pre.path, c);
    }
  }

  lemma AllHoldStill(preconditions: seq<Precondition>, before: Names, files: Inodes, names: Names, inodes: Inodes, temp: Path,
                     c: Effective)
    requires Complete(c) && Closed(before, files) && |inodes| == |files| + 1 && inodes[..|files|] == files
    requires Staging(temp) && names == before[temp := RegularFile(|files|)] && temp !in before
    ensures AllHold(preconditions, before, files, c) ==> AllHold(preconditions, names, inodes, c)
  {
    hide Holds;
    if AllHold(preconditions, before, files, c) {
      forall k | 0 <= k < |preconditions|
        ensures Holds(preconditions[k], names, inodes, c)
      {
        HoldsStill(preconditions[k], before, files, names, inodes, temp, c);
      }
    }
  }

  /** What the caller is told agrees with what became of the visible tree. */
  ghost predicate Truthful(e: Option<Raised>, before: SeenTree, after: SeenTree, wanted: SeenTree) {
    match e
    case None => after == wanted
    case Some(Plain(_)) => after == before
    case Some(Mutation(_, certainty)) => after == if certainty.DefiniteNoMutation? then before else wanted
  }

  /** No staging name is there that was not there before, `temp` aside. */
  ghost predicate StagedBesides(before: Names, after: Names, temp: Path) {
    forall p :: p in after && Staging(p) && p != temp ==> p in before && before[p] == after[p]
  }

  ghost predicate NothingStaged(before: Names, after: Names) {
    forall p :: p in after && Staging(p) ==> p in before && before[p] == after[p]
  }

  /** Giving a visible name to something, and dropping the staging name. */
  lemma StagedStays(before: Names, p: Path, name: Name, temp: Path)
    requires Staging(temp) && !Staging(p)
    ensures StagedBesides(before, before, temp) && StagedBesides(before, before - {temp}, temp)
    ensures StagedBesides(before, before[p := name], temp) && StagedBesides(before, before[p := name] - {temp}, temp)
    ensures StagedBesides(before, (before - {temp})[p := name], temp)
    ensures temp in before ==> temp in before[p := name] && before[p := name][temp] == before[temp]
  {
    hide Staging;
  }

  lemma StagedStarts(before: Names, temp: Path, name: Name)
    ensures StagedBesides(before, before, temp) && StagedBesides(before, before[temp := name], temp)
  {
    hide Staging;
  }

  /** What was staged after a new staging name was opened was staged before, that name aside. */
  lemma StagedSince(before: Names, temp: Path, name: Name, after: Names)
    requires StagedBesides(before[temp := name], after, temp)
    ensures StagedBesides(before, after, temp)
  {
    hide Staging;
  }

  /** Once the staging name is dropped, or if nothing changed at all, nothing new is staged. */
  lemma StagedUnlinked(before: Names, after: Names, temp: Path)
    requires StagedBesides(before, after, temp)
    ensures temp !in after ==> NothingStaged(before, after)
    ensures NothingStaged(before, after - {temp}) && NothingStaged(before, before)
  {
    hide Staging;
  }

  lemma SameStaging(before: Names, after: Names)
    requires OnStaging(after) == OnStaging(before)
    ensures NothingStaged(before, after)
  {
    forall p | p in after && Staging(p)
      ensures p in before && before[p] == after[p]
    {
      assert p in OnStaging(after) && OnStaging(after)[p] == after[p];
    }
  }

  class FilesystemMutator {
    const constraints: Effective
    const surroundings: nat -> Moment
    var names: Names
    var inodes: Inodes
    var now: nat

    ghost predicate Valid()
      reads `names, `inodes
    {
      Complete(constraints) && WellFormedDisk(names, inodes)
    }

    /** Nothing fails, and every write makes progress. */
    ghost predicate Calm() { forall n :: surroundings(n).failure.None? && surroundings(n).count > 0 }

    /** Of any three identifiers drawn in a row, one is not in use in the directory. */
    ghost predicate FreshIds(directory: Path)
      reads `names
    {
      forall n :: OneIsFree(directory, names, n)
    }

    predicate OneIsFree(directory: Path, taken: Names, n: nat) {
      IsFree(directory, taken, n) || IsFree(directory, taken, n + 1) || IsFree(directory, taken, n + 2)
    }

    predicate IsFree(directory: Path, taken: Names, n: nat) { StagingName(directory, surroundings(n).id) !in taken }

    /** One of the next tries meets a free name before anything but a taken one stops it. */
    predicate Opens(directory: Path, taken: Names, n: nat, tries: nat)
      decreases tries
    {
      tries > 0 &&
      match surroundings(n).failure
      case Some(fault) => fault == EntryExists && Opens(directory, taken, n + 1, tries - 1)
      case None => IsFree(directory, taken, n) || Opens(directory, taken, n + 1, tries - 1)
    }

    lemma FreshIdsOpen(directory: Path, n: nat)
      ensures Calm() && FreshIds(directory) ==> Opens(directory, names, n, 3)
    {
      if Calm() && FreshIds(directory) {
        assert OneIsFree(directory, names, n);
        assert surroundings(n).failure.None? && surroundings(n + 1).failure.None? && surroundings(n + 2).failure.None?;
      }
    }

    constructor (constraints: Effective, surroundings: nat -> Moment, names: Names, inodes: Inodes)
      requires Complete(constraints) && WellFormedDisk(names, inodes)
      ensures Valid() && this.names == names && this.inodes == inodes && this.constraints == constraints
    {
      this.constraints, this.surroundings, this.names, this.inodes, now := constraints, surroundings, names, inodes, 0;
    }

    // ----- single calls

    /** A call or check that changes nothing: a hook, an abort check, a read, a flush. */
    method Step() returns (e: Option<Raised>)
      modifies `now
      ensures now == old(now) + 1
      ensures e == match surroundings(old(now)).failure case None => None case Some(fault) => Some(Plain(fault))
      ensures e.Some? ==> e.value.Plain?
      ensures Calm() ==> e.None?
    {
      var moment := surroundings(now);
      now := now + 1;
      return if moment.failure.None? then None else Some(Plain(moment.failure.value));
    }

    method LinkNames(existing: Path, added: Path) returns (e: Option<Raised>)
      requires Valid() && !Staging(added) && added != []
      requires existing in names && names[existing].RegularFile?
      modifies this
      ensures Valid() && inodes == old(inodes)
      ensures e.Some? ==> e.value.Plain? && names == old(names)
      ensures e.None? ==> added !in old(names) && names == old(names)[added := old(names)[existing]]
      ensures Calm() && added !in old(names) && Parent(added) in old(names) && old(names)[Parent(added)].Folder? ==> e.None?
    {
      e := Step();
      if e.Some? {
        return;
      }
      if added in names {
        return Some(Plain(EntryExists));
      }
      if Parent(added) !in names || !names[Parent(added)].Folder? {
        return Some(Plain(NoEntry));
      }
      VisibleSet(names, inodes, added, names[existing]);
      names := names[added := names[existing]];
    }

    method UnlinkName(p: Path) returns (e: Option<Raised>)
      requires Valid()
      modifies this
      ensures Valid() && inodes == old(inodes)
      ensures e.Some? ==> e.value.Plain? && names == old(names)
      ensures e.None? ==> p in old(names) && !old(names)[p].Folder? && names == old(names) - {p}
      ensures Calm() && p in old(names) && !old(names)[p].Folder? ==> e.None?
    {
      e := Step();
      if e.Some? {
        return;
      }
      if p !in names {
        return Some(Plain(NoEntry));
      }
      if names[p].Folder? {
        return Some(Plain(Errno(1)));
      }
      VisibleRemove(names, inodes, p);
      names := names - {p};
    }

    /** Renaming one name of a file onto another name of the same file does nothing. */
    method RenameFile(from: Path, to: Path) returns (e: Option<Raised>)
      requires Valid() && !Staging(to) && to != []
      modifies this
      ensures Valid() && inodes == old(inodes)
      ensures e.Some? ==> e.value.Plain? && names == old(names)
      ensures e.None? ==>
                && from in old(names) && old(names)[from].RegularFile?
                && names == if to in old(names) && old(names)[to] == old(names)[from] then old(names)
                            else (old(names) - {from})[to := old(names)[from]]
      ensures (Calm() && from in old(names) && old(names)[from].RegularFile? && Parent(to) in old(names)
               && old(names)[Parent(to)].Folder? && (to in old(names) ==> !old(names)[to].Folder?)) ==> e.None?
    {
      e := Step();
      if e.Some? {
        return;
      }
      if from !in names || !names[from].RegularFile? || Parent(to) !in names || !names[Parent(to)].Folder? {
        return Some(Plain(NoEntry));
      }
      if to in names && names[to].Folder? {
        return Some(Plain(Errno(21)));
      }
      if to in names && names[to] == names[from] {
        return;
      }
      var file := names[from];
      VisibleRemove(names, inodes, from);
      VisibleSet(names - {from}, inodes, to, file);
      names := (names - {from})[to := file];
    }

    // ----- looking before acting

    /** Walks down from the root, refusing links on the way. */
    method Inspect(path: Path) returns (r: Result<Name, Raised>)
      requires Valid()
      modifies `now
      ensures r.Err? ==> r.error.Plain?
      ensures r.Ok? ==> path in names && names[path] == r.value && !r.value.Link? && !Sensitive(Join(path), constraints.deniedPaths)
      ensures Calm() && path in names && !names[path].Link? && !Sensitive(Join(path), constraints.deniedPaths) ==> r.Ok?
    {
      hide Sensitive, Join;
      var root := Step();
      if root.Some? {
        return Err(root.value);
      }
      if Sensitive(Join(path), constraints.deniedPaths) {
        return Err(Plain(SensitivePath));
      }
      var i := 0;
      assert path[..0] == [] && path[..|path|] == path;
      while i < |path|
        invariant 0 <= i <= |path|
        invariant path[..i] in names && !names[path[..i]].Link? && (i < |path| ==> names[path[..i]].Folder?)
      {
        i := i + 1;
        if path in names && i < |path| { AncestorIsFolder(names, path, path[..i]); }
        var lstat := Step();
        if lstat.Some? {
          return Err(lstat.value);
        }
        if path[..i] !in names {
          return Err(Plain(NoEntry));
        }
        if names[path[..i]].Link? {
          return Err(Plain(SymlinkDenied));
        }
        if i < |path| && !names[path[..i]].Folder? {
          return Err(Plain(NotADirectory));
        }
      }
      var realpath := Step();
      if realpath.Some? {
        return Err(realpath.value);
      }
      return Ok(names[path]);
    }

    method InspectFolder(path: Path) returns (e: Option<Raised>)
      requires Valid()
      modifies `now
      ensures e.Some? ==> e.value.Plain?
      ensures e.None? ==> path in names && names[path].Folder?
      ensures Calm() && path in names && names[path].Folder? && !Sensitive(Join(path), constraints.deniedPaths) ==> e.None?
    {
      hide Sensitive, Join;
      var inspected := Inspect(path);
      if inspected.Err? {
        return Some(inspected.error);
      }
      return if inspected.value.Folder? then None else Some(Plain(NotADirectory));
    }

    /** The file a change is about: regular, and with no other name. */
    method InspectFile(path: Path) returns (r: Result<Name, Raised>)
      requires Valid()
      modifies `now
      ensures r.Err? ==> r.error.Plain?
      ensures r.Ok? ==> path in names && names[path] == r.value && r.value.RegularFile? && LinksTo(names, r.value) <= 1
      ensures (Calm() && path in names && names[path].RegularFile? && LinksTo(names, names[path]) <= 1
               && !Sensitive(Join(path), constraints.deniedPaths)) ==> r.Ok?
    {
      hide Sensitive, Join, LinksTo;
      r := Inspect(path);
      if r.Err? {
        return;
      }
      if !r.value.RegularFile? {
        return Err(Plain(NotRegular));
      }
      if LinksTo(names, r.value) > 1 {
        return Err(Plain(HardLinkDenied));
      }
    }

    method ReadTextFile(path: JsString) returns (r: Result<seq<Byte>, Raised>)
      requires Valid() && Join(Split(path)) == path
      modifies `now
      ensures r.Err? ==> r.error.Plain?
      ensures r.Ok? ==>
                && ExtensionPermitted(path, constraints) && ReadableFile(Split(path), names, inodes, constraints)
                && r.value == inodes[names[Split(path)].inode].bytes
      ensures (Calm() && ExtensionPermitted(path, constraints) && ReadableFile(Split(path), names, inodes, constraints)
               && !Sensitive(path, constraints.deniedPaths)) ==> r.Ok?
    {
      hide Sensitive, Join, LinksTo, ExtensionPermitted, TextBytes;
      var aborted := Step();
      if aborted.Some? {
        return Err(aborted.value);
      }
      if !ExtensionPermitted(path, constraints) {
        return Err(Plain(SensitivePath));
      }
      var inspected := InspectFile(Split(path));
      if inspected.Err? {
        return Err(inspected.error);
      }
      var bytes := inodes[inspected.value.inode].bytes;
      if |bytes| > constraints.limits[MaxFileBytes] {
        return Err(Plain(TooLarge));
      }
      var open := Step();
      if open.Some? {
        return Err(open.value);
      }
      var read := Step();
      if read.Some? {
        return Err(read.value);
      }
      if !TextBytes(bytes) {
        return Err(Plain(Binary));
      }
      return Ok(bytes);
    }

    method IsAbsent(path: JsString) returns (r: Result<bool, Raised>)
      requires Valid() && Join(Split(path)) == path && Split(path) != []
      modifies `now
      ensures r.Err? ==> r.error.Plain?
      ensures r == Ok(true) ==>
                Split(path) !in names && Parent(Split(path)) in names && names[Parent(Split(path))].Folder?
      ensures (Calm() && Split(path) !in names && Parent(Split(path)) in names && names[Parent(Split(path))].Folder?
               && !Sensitive(path, constraints.deniedPaths)
               && !Sensitive(Join(Parent(Split(path))), constraints.deniedPaths)) ==> r == Ok(true)
    {
      hide Sensitive, Join, Split;
      if Sensitive(path, constraints.deniedPaths) {
        return Err(Plain(SensitivePath));
      }
      var parent := InspectFolder(Parent(Split(path)));
      if parent.Some? {
        return Err(parent.value);
      }
      var lstat := Step();
      if lstat.Some? {
        return Err(lstat.value);
      }
      if Split(path) !in names {
        return Ok(true);
      }
      return if names[Split(path)].Link? then Err(Plain(SymlinkDenied)) else Ok(false);
    }

    method VerifyPrecondition(pre: Precondition) returns (e: Option<Raised>)
      requires Valid()
      modifies `now
      ensures e.Some? ==> e.value.Plain?
      ensures e.None? ==> Holds(pre, names, inodes, constraints)
      ensures Calm() && !Sensitive([], constraints.deniedPaths) && Holds(pre, names, inodes, constraints) ==> e.None?
    {
      hide Sensitive, Join, LinksTo, ExtensionPermitted, TextBytes, Normalizable, Split, Classify, ReadableFile;
      if !Normalizable(pre.path, LimitsOf(constraints), false) {
        return Some(Plain(InvalidPath));
      }
      e := Step();
      if e.Some? {
        return;
      }
      if !ClassifyVisible(pre.path, constraints).Inside? {
        return Some(Plain(SensitivePath));
      }
      ReachableIsNotStaging(pre.path, constraints);
      if pre.Absent? {
        if !Sensitive([], constraints.deniedPaths) { ParentIsNotSensitive(pre.path, constraints); }
        var absent := IsAbsent(pre.path);
        if absent.Err? {
          return Some(absent.error);
        }
        return if absent.value then None else Some(Plain(PreconditionFailed));
      }
      var file := ReadTextFile(pre.path);
      if file.Err? {
        return Some(file.error);
      }
      if Sha256(file.value) != pre.sha256 || |file.value| != pre.size {
        return Some(Plain(PreconditionFailed));
      }
    }

    method VerifyPreconditions(preconditions: seq<Precondition>) returns (e: Option<Raised>)
      requires Valid()
      modifies `now
      ensures e.Some? ==> e.value.Plain?
      ensures e.None? ==> AllHold(preconditions, names, inodes, constraints)
      ensures Calm() && !Sensitive([], constraints.deniedPaths) && AllHold(preconditions, names, inodes, constraints) ==> e.None?
    {
      hide Holds, Sensitive;
      var k := 0;
      while k < |preconditions|
        invariant 0 <= k <= |preconditions|
        invariant forall j :: 0 <= j < k ==> Holds(preconditions[j], names, inodes, constraints)
      {
        e := VerifyPrecondition(preconditions[k]);
        if e.Some? {
          return;
        }
        k := k + 1;
      }
      e := None;
    }

    method FsyncParent(p: Path) returns (e: Option<Raised>)
      requires Valid() && p != []
      modifies `now
      ensures e.Some? ==> e.value.Plain?
      ensures Calm() && Parent(p) in names && names[Parent(p)].Folder? && !Sensitive(Join(Parent(p)), constraints.deniedPaths) ==>
                e.None?
    {
      hide Sensitive, Join;
      e := Step();
      if e.Some? {
        return;
      }
      var parent := Inspect(Parent(p));
      if parent.Err? {
        return Some(parent.error);
      }
      e := Step();
      if e.Some? {
        return;
      }
      e := Step();
      if e.Some? {
        return;
      }
      e := Step();
    }

    // ----- staging

    lemma StagingNameIs(directory: Path, id: JsString)
      ensures var temp := StagingName(directory, id); Staging(temp) && temp != [] && Parent(temp) == directory
    {
    }

    /** Three tries at a staging name nobody has. The last name tried is reported even when
        somebody else has it. */
    method OpenStaging(directory: Path) returns (e: Option<Raised>, temp: Path)
      requires Valid() && directory in names && names[directory].Folder?
      modifies this
      ensures Valid() && Staging(temp) && Visible(names, inodes) == old(Visible(names, inodes))
      ensures e.Some? ==> e.value.Plain? && names == old(names) && inodes == old(inodes)
      ensures e.None? ==>
                && inodes == old(inodes) + [Inode([], CREATED_MODE)]
                && temp !in old(names) && names == old(names)[temp := RegularFile(|old(inodes)|)]
                && Private(names, |old(inodes)|, temp)
      ensures e.None? <==> Opens(directory, old(names), old(now), 3)
    {
      hide Visible, Private, Staging, StagingName, WellFormedDisk, FilesystemMutator.Calm;
      var attempt := 0;
      e, temp := None, StagingName(directory, []);
      StagingNameIs(directory, []);
      while attempt < 3
        invariant 0 <= attempt <= 3 && names == old(names) && inodes == old(inodes) && Staging(temp)
        invariant attempt > 0 ==> e.Some? && e.value.Plain?
        invariant Opens(directory, names, old(now), 3) <==> Opens(directory, names, now, 3 - attempt)
      {
        temp := StagingName(directory, surroundings(now).id);
        StagingNameIs(directory, surroundings(now).id);
        e := Step();
        if e.None? && temp !in names {
          VisibleNewFile(names, inodes, temp, Inode([], CREATED_MODE));
          names, inodes := names[temp := RegularFile(|inodes|)], inodes + [Inode([], CREATED_MODE)];
          return;
        }
        if e.None? {
          e := Some(Plain(EntryExists));
        }
        attempt := attempt + 1;
        if e != Some(Plain(EntryExists)) {
          return;
        }
      }
    }

    /** The write loop, then the mode, the flush and the close. */
    method FillStaging(temp: Path, file: nat, bytes: seq<Byte>, mode: nat) returns (e: Option<Raised>)
      requires Valid() && Staging(temp) && file < |inodes| && inodes[file].bytes == [] && Private(names, file, temp)
      modifies this
      ensures Valid() && names == old(names) && |inodes| == |old(inodes)|
      ensures forall j :: 0 <= j < |inodes| && j != file ==> inodes[j] == old(inodes)[j]
      ensures Visible(names, inodes) == old(Visible(names, inodes))
      ensures e.Some? ==> e.value.Plain?
      ensures e.None? ==> inodes[file] == Inode(bytes, Permissions(mode))
      ensures Calm() ==> e.None?
    {
      var offset := 0;
      while offset < |bytes|
        invariant 0 <= offset <= |bytes|
        invariant Valid() && names == old(names) && |inodes| == |old(inodes)| && Visible(names, inodes) == old(Visible(names, inodes))
        invariant inodes[file].bytes == bytes[..offset]
        invariant forall j :: 0 <= j < |inodes| && j != file ==> inodes[j] == old(inodes)[j]
      {
        e := Step();
        if e.Some? {
          return;
        }
        var written := surroundings(now).count;
        e := Step();
        if e.Some? {
          return;
        }
        if written == 0 {
          return Some(Plain(WriteProgress));
        }
        var upTo := if offset + written <= |bytes| then offset + written else |bytes|;
        var longer := inodes[file].(bytes := inodes[file].bytes + bytes[offset..upTo]);
        assert bytes[..offset] + bytes[offset..upTo] == bytes[..upTo];
        VisibleWrite(names, inodes, temp, file, longer);
        inodes := inodes[file := longer];
        offset := upTo;
      }
      assert bytes[..|bytes|] == bytes;
      e := Step();
      if e.Some? {
        return;
      }
      VisibleWrite(names, inodes, temp, file, Inode(bytes, Permissions(mode)));
      inodes := inodes[file := Inode(bytes, Permissions(mode))];
      e := Step();
      if e.Some? {
        return;
      }
      e := Step();
    }

    /** Publishing a new file: link, then drop the staging name. */
    method CommitCreate(path: JsString, temp: Path, file: nat, preconditions: seq<Precondition>)
      returns (e: Option<Raised>, committed: bool)
      requires Valid() && Staging(temp) && file < |inodes| && Private(names, file, temp)
      requires Reachable(path, constraints) && Split(path) != [] && !Staging(Split(path))
      modifies this
      ensures Valid() && inodes == old(inodes) && (e.Some? ==> e.value.Plain?)
      ensures !committed ==> e.Some? && names == old(names)
      ensures committed ==> Visible(names, inodes) == old(Visible(names, inodes))[Split(path) := Contents(inodes[file])]
      ensures e.None? ==> committed && temp !in names && OnStaging(names) == OnStaging(old(names)) - {temp}
      ensures StagedBesides(old(names), names, temp) && (temp in names ==> names[temp] == old(names)[temp])
      ensures (Calm() && AllHold(preconditions, old(names), inodes, constraints) && !Sensitive([], constraints.deniedPaths)
               && HoldsAbsent(path, old(names), constraints)) ==> e.None?
    {
      hide Reachable, Holds, Sensitive, StagedBesides, Staging;
      committed := false;
      StagedStays(names, Split(path), names[temp], temp);
      e := VerifyPreconditions(preconditions);
      if e.Some? {
        return;
      }
      e := Step();
      if e.Some? {
        return;
      }
      VisibleSetIfPossible(names, Split(path), names[temp]);
      e := LinkNames(temp, Split(path));
      if e.Some? {
        return;
      }
      committed := true;
      e := Step();
      if e.Some? {
        return;
      }
      VisibleRemove(names, inodes, temp);
      e := UnlinkName(temp);
      if e.Some? {
        return;
      }
      if !Sensitive([], constraints.deniedPaths) { ParentIsNotSensitive(path, constraints); }
      e := FsyncParent(Split(path));
    }

    /** Replacing a file: rename the staging name over it. */
    method CommitWrite(path: JsString, temp: Path, file: nat, preconditions: seq<Precondition>)
      returns (e: Option<Raised>, committed: bool)
      requires Valid() && Staging(temp) && file < |inodes| && Private(names, file, temp)
      requires Reachable(path, constraints) && Split(path) != [] && !Staging(Split(path))
      modifies this
      ensures Valid() && inodes == old(inodes) && (e.Some? ==> e.value.Plain?)
      ensures !committed ==> e.Some? && names == old(names)
      ensures committed ==> Visible(names, inodes) == old(Visible(names, inodes))[Split(path) := Contents(inodes[file])]
      ensures e.None? ==> committed && temp !in names && OnStaging(names) == OnStaging(old(names)) - {temp}
      ensures StagedBesides(old(names), names, temp) && (temp in names ==> names[temp] == old(names)[temp])
      ensures (Calm() && AllHold(preconditions, old(names), inodes, constraints) && !Sensitive([], constraints.deniedPaths)
               && Split(path) in old(names) && old(names)[Split(path)].RegularFile?) ==> e.None?
    {
      hide Reachable, Holds, Sensitive, StagedBesides, Staging;
      committed := false;
      StagedStays(names, Split(path), names[temp], temp);
      e := VerifyPreconditions(preconditions);
      if e.Some? {
        return;
      }
      e := Step();
      if e.Some? {
        return;
      }
      assert Split(path) in names ==> names[Split(path)] != names[temp];
      VisibleRemove(names, inodes, temp);
      VisibleSetIfPossible(names - {temp}, Split(path), names[temp]);
      e := RenameFile(temp, Split(path));
      if e.Some? {
        return;
      }
      committed := true;
      e := Step();
      if e.Some? {
        return;
      }
      if !Sensitive([], constraints.deniedPaths) { ParentIsNotSensitive(path, constraints); }
      e := FsyncParent(Split(path));
    }

    lemma VisibleSetIfPossible(names: Names, p: Path, name: Name)
      requires Closed(names, inodes) && !Staging(p) && name.RegularFile? && name.inode < |inodes|
      ensures Closed(names[p := name], inodes)
      ensures Visible(names[p := name], inodes) == Visible(names, inodes)[p := Contents(inodes[name.inode])]
      ensures OnStaging(names[p := name]) == OnStaging(names)
    {
    }

    /** The body of the attempt: what it raises has been turned into a mutation error, and
        `open` says whether the staged file was left open. */
    method StageAndCommit(path: JsString, bytes: seq<Byte>, mode: nat, creating: bool, preconditions: seq<Precondition>)
      returns (e: Option<Raised>, temp: Path, open: bool)
      requires Valid() && Reachable(path, constraints) && Split(path) != [] && !Staging(Split(path))
      requires Parent(Split(path)) in names && names[Parent(Split(path))].Folder?
      modifies this
      ensures Valid() && Staging(temp)
      ensures var before := old(Visible(names, inodes));
              Truthful(e, before, Visible(names, inodes), before[Split(path) := Contents(Inode(bytes, Permissions(mode)))])
      ensures open ==> e.Some? && e.value.Mutation? && e.value.certainty.DefiniteNoMutation?
      ensures e.None? ==> temp !in names && OnStaging(names) == old(OnStaging(names))
      ensures StagedBesides(old(names), names, temp) && (names == old(names) || (temp in names ==> !names[temp].Folder?))
      ensures (Calm() && AllHold(preconditions, old(names), old(inodes), constraints) && !Sensitive([], constraints.deniedPaths)
               && (if creating then HoldsAbsent(path, old(names), constraints)
                   else Split(path) in old(names) && old(names)[Split(path)].RegularFile?)
               && old(FreshIds(Parent(Split(path))))) ==> e.None?
    {
      hide Reachable, Sensitive, Holds, AllHold, Split, Join, TextBytes, LinksTo, Visible, Rooted, Closed, StagedBesides;
      hide FilesystemMutator.Opens, FilesystemMutator.FreshIds, FilesystemMutator.Calm;
      open := false;
      FreshIdsOpen(Parent(Split(path)), now);
      e, temp := OpenStaging(Parent(Split(path)));
      StagedStarts(old(names), temp, RegularFile(|old(inodes)|));
      if e.Some? {
        e := Some(MutationError(e.value, false));
        return;
      }
      var file := |inodes| - 1;
      e := FillStaging(temp, file, bytes, mode);
      if e.Some? {
        open := true;
        e := Some(MutationError(e.value, false));
        return;
      }
      assert inodes[..|old(inodes)|] == old(inodes);
      AllHoldStill(preconditions, old(names), old(inodes), names, inodes, temp, constraints);
      assert OnStaging(names) - {temp} == old(OnStaging(names));
      var committed: bool;
      if creating {
        e, committed := CommitCreate(path, temp, file, preconditions);
      } else {
        e, committed := CommitWrite(path, temp, file, preconditions);
      }
      StagedSince(old(names), temp, RegularFile(file), names);
      if e.Some? {
        e := Some(MutationError(e.value, committed));
      }
    }

    /** Stages the bytes beside the target, commits, and tidies up. A failure to close the
        staged file replaces whatever was raised before it. */
    method WithStagedFile(path: JsString, bytes: seq<Byte>, mode: nat, creating: bool, preconditions: seq<Precondition>)
      returns (e: Option<Raised>)
      requires Valid() && Reachable(path, constraints) && Split(path) != [] && !Staging(Split(path))
      modifies this
      ensures Valid()
      ensures var before := old(Visible(names, inodes));
              Truthful(e, before, Visible(names, inodes), before[Split(path) := Contents(Inode(bytes, Permissions(mode)))])
      ensures e.None? ==> OnStaging(names) == old(OnStaging(names))
      ensures Calm() ==> NothingStaged(old(names), names)
      ensures (Calm() && AllHold(preconditions, old(names), old(inodes), constraints) && !Sensitive([], constraints.deniedPaths)
               && (if creating then HoldsAbsent(path, old(names), constraints)
                   else Split(path) in old(names) && old(names)[Split(path)].RegularFile?)
               && old(FreshIds(Parent(Split(path))))) ==> e.None?
    {
      hide Reachable, Sensitive, Holds, AllHold, Split, Join, Visible, Closed, StagedBesides, NothingStaged, FilesystemMutator.FreshIds;
      SameStaging(names, names);
      if !Sensitive([], constraints.deniedPaths) { ParentIsNotSensitive(path, constraints); }
      var directory := Parent(Split(path));
      e := InspectFolder(directory);
      if e.Some? {
        return;
      }
      e := InspectFolder(directory);
      if e.Some? {
        return;
      }
      var temp: Path, open: bool;
      e, temp, open := StageAndCommit(path, bytes, mode, creating, preconditions);
      if open {
        var closing := Step();
        if closing.Some? {
          return closing;
        }
      }
      if temp in names && !names[temp].Folder? { VisibleRemove(names, inodes, temp); }
      ghost var staged := names;
      var ignored := UnlinkName(temp);
      StagedUnlinked(old(names), staged, temp);
    }

    // ----- the four operations

    method ExecuteCreate(path: JsString, content: JsString, preconditions: seq<Precondition>) returns (e: Option<Raised>)
      requires Valid() && preconditions == [Absent(path)]
      modifies this
      ensures Valid()
      ensures var before := old(Visible(names, inodes));
              Truthful(e, before, Visible(names, inodes), Applied(CreateFile(path, content), before))
      ensures e.None? ==> OnStaging(names) == old(OnStaging(names))
      ensures Calm() ==> NothingStaged(old(names), names)
      ensures (Calm() && Ready(CreateFile(path, content), preconditions, old(names), old(inodes), constraints)
               && old(FreshIds(Parent(Split(path))))) ==> e.None?
    {
      hide Sensitive, Split, Join, Visible, Closed, Normalizable, Classify, Rooted, NothingStaged, OnStaging, FilesystemMutator.Calm, FilesystemMutator.FreshIds;
      SameStaging(names, names);
      assert AllHold(preconditions, names, inodes, constraints) ==> Holds(preconditions[0], names, inodes, constraints);
      if PathFault(path, constraints).Some? {
        return Some(Plain(PathFault(path, constraints).value));
      }
      ReachableIsNotStaging(path, constraints);
      if !Fits(content, constraints) {
        return Some(Plain(TooLarge));
      }
      e := WithStagedFile(path, Utf8(content), CREATED_MODE, true, preconditions);
    }

    method ExecuteWrite(path: JsString, content: JsString, preconditions: seq<Precondition>) returns (e: Option<Raised>)
      requires Valid() && |preconditions| == 1 && preconditions[0].Existing? && preconditions[0].path == path
      modifies this
      ensures Valid()
      ensures var before := old(Visible(names, inodes));
              Truthful(e, before, Visible(names, inodes), Applied(WriteFile(path, content), before))
      ensures e.None? ==> OnStaging(names) == old(OnStaging(names))
      ensures Calm() ==> NothingStaged(old(names), names)
      ensures (Calm() && Ready(WriteFile(path, content), preconditions, old(names), old(inodes), constraints)
               && old(FreshIds(Parent(Split(path))))) ==> e.None?
    {
      hide Sensitive, Split, Join, Visible, Closed, Normalizable, Classify, Rooted, LinksTo, TextBytes, ExtensionPermitted, NothingStaged, OnStaging, FilesystemMutator.Calm, FilesystemMutator.FreshIds;
      SameStaging(names, names);
      assert AllHold(preconditions, names, inodes, constraints) ==> Holds(preconditions[0], names, inodes, constraints);
      if PathFault(path, constraints).Some? {
        return Some(Plain(PathFault(path, constraints).value));
      }
      ReachableIsNotStaging(path, constraints);
      if !Fits(content, constraints) {
        return Some(Plain(TooLarge));
      }
      e := VerifyPreconditions(preconditions);
      if e.Some? {
        return;
      }
      HeldFileIsVisible(path, preconditions[0].sha256, preconditions[0].size, names, inodes, constraints);
      var source := InspectFile(Split(path));
      if source.Err? {
        return Some(source.error);
      }
      e := WithStagedFile(path, Utf8(content), inodes[source.value.inode].mode, false, preconditions);
    }

    method ExecuteMove(source: JsString, destination: JsString, preconditions: seq<Precondition>) returns (e: Option<Raised>)
      requires Valid() && MatchesRequest(MoveFile(source, destination), preconditions)
      modifies this
      ensures Valid()
      ensures var before := old(Visible(names, inodes));
              Truthful(e, before, Visible(names, inodes), Applied(MoveFile(source, destination), before))
      ensures e.None? ==> OnStaging(names) == old(OnStaging(names))
      ensures Calm() ==> NothingStaged(old(names), names)
      ensures (Calm() && Ready(MoveFile(source, destination), preconditions, old(names), old(inodes), constraints)) ==> e.None?
    {
      hide Sensitive, Split, Join, Visible, Normalizable, Classify, LinksTo, TextBytes, ExtensionPermitted;
      if PathFault(source, constraints).Some? {
        return Some(Plain(PathFault(source, constraints).value));
      }
      if PathFault(destination, constraints).Some? {
        return Some(Plain(PathFault(destination, constraints).value));
      }
      var committed: bool;
      e, committed := TryMove(source, destination, preconditions);
      if committed { SameStaging(old(names), names); }
      if e.Some? {
        e := Some(MutationError(e.value, committed));
      }
    }

    method TryMove(source: JsString, destination: JsString, preconditions: seq<Precondition>)
      returns (e: Option<Raised>, committed: bool)
      requires Valid() && MatchesRequest(MoveFile(source, destination), preconditions)
      requires Reachable(source, constraints) && Reachable(destination, constraints)
      modifies this
      ensures Valid() && (e.Some? ==> e.value.Plain?) && (e.None? ==> committed)
      ensures !committed ==> names == old(names) && inodes == old(inodes)
      ensures committed ==>
                && Visible(names, inodes) == Applied(MoveFile(source, destination), old(Visible(names, inodes)))
                && OnStaging(names) == old(OnStaging(names))
      ensures (Calm() && Ready(MoveFile(source, destination), preconditions, old(names), old(inodes), constraints)) ==> e.None?
    {
      hide Sensitive, Split, Join, Reachable, Normalizable, Classify, LinksTo, TextBytes, ExtensionPermitted, Closed, Rooted, Visible, OnStaging;
      committed := false;
      var from, to := Split(source), Split(destination);
      ReachableIsNotStaging(source, constraints);
      ReachableIsNotStaging(destination, constraints);
      if !Sensitive([], constraints.deniedPaths) {
        ParentIsNotSensitive(source, constraints);
        ParentIsNotSensitive(destination, constraints);
      }
      e := VerifyPreconditions(preconditions);
      if e.Some? {
        return;
      }
      assert Holds(preconditions[0], names, inodes, constraints) && Holds(preconditions[1], names, inodes, constraints);
      HeldFileIsVisible(source, preconditions[0].sha256, preconditions[0].size, names, inodes, constraints);
      var inspected := InspectFile(from);
      if inspected.Err? {
        return Some(inspected.error), false;
      }
      e := InspectFolder(Parent(to));
      if e.Some? {
        return;
      }
      e := Step();
      if e.Some? {
        return;
      }
      VisibleRemove(names, inodes, from);
      VisibleSetIfPossible(names - {from}, to, names[from]);
      e := RenameFile(from, to);
      if e.Some? {
        return;
      }
      committed := true;
      ParentsRemain(old(names), names, inodes, from, to);
      e := Step();
      if e.Some? {
        return;
      }
      e := FsyncParent(from);
      if e.Some? {
        return;
      }
      if Parent(from) != Parent(to) {
        e := FsyncParent(to);
      }
    }

    lemma ParentsRemain(before: Names, names: Names, inodes: Inodes, from: Path, to: Path)
      requires WellFormedDisk(before, inodes) && WellFormedDisk(names, inodes) && from != [] && to != []
      requires from in before && !before[from].Folder? && to in names
      requires forall p :: p in before && p != from ==> p in names && (before[p].Folder? ==> names[p].Folder?)
      ensures Parent(from) in names && names[Parent(from)].Folder? && Parent(to) in names && names[Parent(to)].Folder?
    {
      assert Parent(from) != from;
    }

    method TryDelete(path: JsString, preconditions: seq<Precondition>) returns (e: Option<Raised>, committed: bool)
      requires Valid() && MatchesRequest(DeleteFile(path), preconditions) && Reachable(path, constraints)
      modifies this
      ensures Valid() && (e.Some? ==> e.value.Plain?) && (e.None? ==> committed)
      ensures !committed ==> names == old(names) && inodes == old(inodes)
      ensures committed ==>
                && Visible(names, inodes) == Applied(DeleteFile(path), old(Visible(names, inodes)))
                && OnStaging(names) == old(OnStaging(names))
      ensures (Calm() && Ready(DeleteFile(path), preconditions, old(names), old(inodes), constraints)) ==> e.None?
    {
      hide Sensitive, Split, Join, Reachable, Normalizable, Classify, LinksTo, TextBytes, ExtensionPermitted, Closed, Visible, OnStaging;
      committed := false;
      var p := Split(path);
      ReachableIsNotStaging(path, constraints);
      if !Sensitive([], constraints.deniedPaths) { ParentIsNotSensitive(path, constraints); }
      e := VerifyPreconditions(preconditions);
      if e.Some? {
        return;
      }
      assert Holds(preconditions[0], names, inodes, constraints);
      var inspected := InspectFile(p);
      if inspected.Err? {
        return Some(inspected.error), false;
      }
      e := Step();
      if e.Some? {
        return;
      }
      VisibleRemove(names, inodes, p);
      assert Parent(p) != p;
      e := UnlinkName(p);
      if e.Some? {
        return;
      }
      committed := true;
      e := Step();
      if e.Some? {
        return;
      }
      e := FsyncParent(p);
    }

    method ExecuteDelete(path: JsString, preconditions: seq<Precondition>) returns (e: Option<Raised>)
      requires Valid() && MatchesRequest(DeleteFile(path), preconditions)
      modifies this
      ensures Valid()
      ensures var before := old(Visible(names, inodes));
              Truthful(e, before, Visible(names, inodes), Applied(DeleteFile(path), before))
      ensures e.None? ==> OnStaging(names) == old(OnStaging(names))
      ensures Calm() ==> NothingStaged(old(names), names)
      ensures (Calm() && Ready(DeleteFile(path), preconditions, old(names), old(inodes), constraints)) ==> e.None?
    {
      hide Sensitive, Split, Join, Visible, Normalizable, Classify, LinksTo, TextBytes, ExtensionPermitted;
      if PathFault(path, constraints).Some? {
        return Some(Plain(PathFault(path, constraints).value));
      }
      var committed: bool;
      e, committed := TryDelete(path, preconditions);
      if committed { SameStaging(old(names), names); }
      if e.Some? {
        e := Some(MutationError(e.value, committed));
      }
    }

    /** The whole call. Nothing changes unless the preconditions hold of the disk as it was. */
    method ExecuteMutation(request: Request, preconditions: seq<Precondition>) returns (r: Outcome)
      requires Valid()
      modifies this
      ensures Valid()
      ensures r.Failed? && r.certainty.DefiniteNoMutation? ==> Visible(names, inodes) == old(Visible(names, inodes))
      ensures r.Failed? && r.certainty.MutationMayHaveOccurred? ==>
                Visible(names, inodes) == Applied(request, old(Visible(names, inodes)))
      ensures r.Done? ==>
                && Visible(names, inodes) == Applied(request, old(Visible(names, inodes)))
                && OnStaging(names) == old(OnStaging(names))
                && r.resultHash == Sha256(Subject(request, old(Visible(names, inodes))))
                && r.byteLength == |Subject(request, old(Visible(names, inodes)))|
      ensures Calm() ==> NothingStaged(old(names), names)
      ensures (r.Failed? ==> r.certainty.MutationMayHaveOccurred?) ==>
                && constraints.allowMutation && MatchesRequest(request, preconditions)
                && AllHold(preconditions, old(names), old(inodes), constraints)
      ensures (Calm() && Ready(request, preconditions, old(names), old(inodes), constraints)
               && (forall path :: path in RequestPaths(request) ==> old(FreshIds(Parent(Split(path)))))) ==> r.Done?
    {
      hide Sensitive, Split, Join, Visible, Normalizable, Classify, LinksTo, TextBytes, ExtensionPermitted, Closed, Rooted, Holds;
      var e: Option<Raised> := Step();
      if e.Some? {
        return Refused(e.value);
      }
      if !constraints.allowMutation {
        return Refused(Plain(SensitivePath));
      }
      if Ready(request, preconditions, names, inodes, constraints) {
        ReadyPathsAreNormal(request, preconditions, names, inodes, constraints);
      }
      if exists path :: path in RequestPaths(request) && !Normalizable(path, LimitsOf(constraints), false) {
        return Refused(Plain(InvalidPath));
      }
      if !MatchesRequest(request, preconditions) {
        return Refused(Plain(PreconditionFailed));
      }
      e := VerifyPreconditions(preconditions);
      if e.Some? {
        return Refused(e.value);
      }
      SubjectIsHeld(request, preconditions);
      match request {
      case CreateFile(path, content) => e := ExecuteCreate(path, content, preconditions);
      case WriteFile(path, content) => e := ExecuteWrite(path, content, preconditions);
      case MoveFile(source, destination) => e := ExecuteMove(source, destination, preconditions);
      case DeleteFile(path) => e := ExecuteDelete(path, preconditions);
      case OtherOperation => e := Some(Plain(Unsupported));
      }
      if e.Some? {
        return Refused(e.value);
      }
      return Report(request, preconditions);
    }

    lemma SubjectIsHeld(request: Request, preconditions: seq<Precondition>)
      requires Valid() && MatchesRequest(request, preconditions) && AllHold(preconditions, names, inodes, constraints)
      ensures request.MoveFile? || request.DeleteFile? ==>
                && preconditions[0].sha256 == Sha256(Subject(request, Visible(names, inodes)))
                && preconditions[0].size == |Subject(request, Visible(names, inodes))|
    {
      hide Reachable, Split, Visible, Closed, Rooted, HoldsExisting;
      if request.MoveFile? || request.DeleteFile? {
        var pre := preconditions[0];
        assert Holds(pre, names, inodes, constraints);
        HeldFileIsVisible(pre.path, pre.sha256, pre.size, names, inodes, constraints);
      }
    }
  }

  function Report(request: Request, preconditions: seq<Precondition>): Outcome
    requires MatchesRequest(request, preconditions)
  {
    match request
    case CreateFile(_, content) => Done(Sha256(Utf8(content)), |Utf8(content)|)
    case WriteFile(_, content) => Done(Sha256(Utf8(content)), |Utf8(content)|)
    case MoveFile(_, _) => Done(preconditions[0].sha256, preconditions[0].size)
    case DeleteFile(_) => Done(preconditions[0].sha256, preconditions[0].size)
  }

  function Refused(e: Raised): Outcome {
    var m := MutationError(e, false);
    Failed(m.fault, m.certainty)
  }
}
