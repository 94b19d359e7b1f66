/** A disk with hard links: names lead to numbered files, and one file may have several names.
    Staging names are the ones the connector reserves for itself and never shows. */
module FilesystemDisks {
  import opened JsStrings
  import opened Utf
  import opened FilesystemPaths
  import opened FilesystemVisibility

  datatype Inode = Inode(bytes: seq<Byte>, mode: nat)

  datatype Name = RegularFile(inode: nat) | Folder | Link | Other

  type Names = map<Path, Name>

  type Inodes = seq<Inode>

  /** What a caller can observe at a name. */
  datatype Seen = Contents(inode: Inode) | Bare(name: Name)

  type SeenTree = map<Path, Seen>

  predicate Staging(p: Path) { p != [] && STAGING_PREFIX <= p[|p| - 1] }

  function StagingName(directory: Path, id: JsString): Path { directory + [STAGING_PREFIX + id] }

  ghost predicate Closed(names: Names, inodes: Inodes) {
    forall p :: p in names && names[p].RegularFile? ==> names[p].inode < |inodes|
  }

  ghost predicate Rooted(names: Names) {
    && [] in names && names[[]].Folder?
    && forall p :: p in names && p != [] ==> Parent(p) in names && names[Parent(p)].Folder?
  }

  ghost predicate WellFormedDisk(names: Names, inodes: Inodes) { Closed(names, inodes) && Rooted(names) }

  function SeenAt(name: Name, inodes: Inodes): Seen
    requires name.RegularFile? ==> name.inode < |inodes|
  {
    if name.RegularFile? then Contents(inodes[name.inode]) else Bare(name)
  }

  /** Everything but the staging names. */
  ghost function Visible(names: Names, inodes: Inodes): SeenTree
    requires Closed(names, inodes)
  {
    map p | p in names && !Staging(p) :: SeenAt(names[p], inodes)
  }

  ghost function OnStaging(names: Names): Names { map p | p in names && Staging(p) :: names[p] }

  function LinksTo(names: Names, name: Name): nat { |set p | p in names && names[p] == name| }

  /** No name but `temp` leads to file `i`. */
  ghost predicate Private(names: Names, i: nat, temp: Path) {
    && temp in names && names[temp] == RegularFile(i)
    && forall p :: p in names && names[p] == RegularFile(i) ==> p == temp
  }

  lemma {:induction false} AncestorIsFolder(names: Names, p: Path, q: Path)
    requires Rooted(names) && p in names && q <= p && q != p
    ensures q in names && names[q].Folder?
    decreases |p|
  {
    if Parent(p) != q { AncestorIsFolder(names, Parent(p), q); }
  }

  /** A staging name is sensitive, so nothing the connector shows or accepts is one. */
  lemma StagingIsSensitive(p: Path, denied: seq<JsString>)
    requires Segmented(p) && Staging(p)
    ensures Sensitive(Join(p), denied)
  {
    hide SensitiveSegment, STAGING_PREFIX, Lower, Split, Join, NonEmpty;
    SplitJoin(p);
    NonEmptySegments(p);
    StagingSegment(p[|p| - 1]);
    assert SensitiveSegment(p[|p| - 1]);
  }

  // ----- what each change of the disk shows

  lemma VisibleNewFile(names: Names, inodes: Inodes, temp: Path, x: Inode)
    requires WellFormedDisk(names, inodes) && Staging(temp) && temp !in names && Parent(temp) in names && names[Parent(temp)].Folder?
    ensures var names', inodes' := names[temp := RegularFile(|inodes|)], inodes + [x];
            && WellFormedDisk(names', inodes') && Visible(names', inodes') == Visible(names, inodes)
            && Private(names', |inodes|, temp)
  {
  }

  lemma VisibleWrite(names: Names, inodes: Inodes, temp: Path, i: nat, x: Inode)
    requires WellFormedDisk(names, inodes) && Staging(temp) && i < |inodes| && Private(names, i, temp)
    ensures WellFormedDisk(names, inodes[i := x]) && Visible(names, inodes[i := x]) == Visible(names, inodes)
  {
  }

  lemma VisibleSet(names: Names, inodes: Inodes, p: Path, name: Name)
    requires WellFormedDisk(names, inodes) && !Staging(p) && p != [] && Parent(p) in names && names[Parent(p)].Folder?
    requires name.RegularFile? && name.inode < |inodes| && (p in names ==> !names[p].Folder?)
    ensures WellFormedDisk(names[p := name], inodes)
    ensures Visible(names[p := name], inodes) == Visible(names, inodes)[p := Contents(inodes[name.inode])]
    ensures OnStaging(names[p := name]) == OnStaging(names)
  {
  }

  lemma VisibleRemove(names: Names, inodes: Inodes, p: Path)
    requires WellFormedDisk(names, inodes) && p in names && !names[p].Folder?
    ensures WellFormedDisk(names - {p}, inodes)
    ensures !Staging(p) ==>
              Visible(names - {p}, inodes) == Visible(names, inodes) - {p} && OnStaging(names - {p}) == OnStaging(names)
    ensures Staging(p) ==>
              Visible(names - {p}, inodes) == Visible(names, inodes) && OnStaging(names - {p}) == OnStaging(names) - {p}
  {
    assert forall q :: q in names - {p} && q != [] ==> Parent(q) in names && names[Parent(q)].Folder?;
  }
}
