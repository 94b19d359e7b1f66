/** The bounded breadth-first listing. Whatever the budgets, what it reports is the beginning of
    the one complete listing; when it does not report truncation it is all of it. */
module FilesystemListing {
  import opened Options
  import opened JsStrings
  import opened FilesystemPaths
  import opened FilesystemConstraints
  import opened FilesystemVisibility
  import opened FilesystemOrder

  datatype Entry = Entry(path: Path, isDirectory: bool, byteLength: nat)

  datatype ListError = InvalidPath | SensitivePath | NotFound | SymlinkDenied | NotADirectory | Unreadable | OutputTooLarge

  datatype Listing = Listing(entries: seq<Entry>, truncated: bool)

  datatype Pending = Pending(path: Path, depth: nat)

  function EntryFor(p: Path, node: Node): Entry
  {
    Entry(p, node.Directory?, if node.File? then node.size else 0)
  }

  /** `listing` names the children of every directory, each once, in any order. */
  ghost predicate NamesChildren(t: Tree, listing: map<Path, seq<JsString>>) {
    forall d :: d in t && t[d].Directory? ==>
                  && d in listing && (forall i, j :: 0 <= i < j < |listing[d]| ==> listing[d][i] != listing[d][j])
                  && forall name :: name in listing[d] <==> d + [name] in t
  }

  ghost predicate Beneath(p: Path, start: Path) { start <= p && p != start }

  ghost function Reported(entries: seq<Entry>): set<Path> { set e | e in entries :: e.path }

  ghost function Paths(pending: seq<Pending>): set<Path> { set q | q in pending :: q.path }

  lemma ReportedGrows(entries: seq<Entry>, e: Entry)
    ensures Reported(entries + [e]) == Reported(entries) + {e.path}
  {
    assert forall x :: x in entries + [e] <==> x in entries || x == e;
  }

  lemma PathsGrow(pending: seq<Pending>, q: Pending)
    ensures Paths(pending + [q]) == Paths(pending) + {q.path}
  {
    assert forall x :: x in pending + [q] <==> x in pending || x == q;
  }

  lemma PathsShrink(pending: seq<Pending>)
    requires pending != []
    ensures Paths(pending) == Paths(pending[1..]) + {pending[0].path}
  {
    assert pending == [pending[0]] + pending[1..];
    assert forall x :: x in pending <==> x in pending[1..] || x == pending[0];
  }

  ghost predicate SoundEntry(t: Tree, c: Effective, start: Path, e: Entry)
    requires Complete(c)
  {
    && e.path in t && Beneath(e.path, start) && Shown(t, c, e.path) && e == EntryFor(e.path, t[e.path])
    && |e.path| <= |start| + c.limits[MaxDepth]
  }

  /** What the entry list says of the tree. */
  ghost predicate Sound(t: Tree, c: Effective, start: Path, entries: seq<Entry>)
    requires Complete(c)
  {
    && (forall e :: e in entries ==> SoundEntry(t, c, start, e))
    && (forall i, j :: 0 <= i < j < |entries| ==> entries[i].path != entries[j].path)
  }

  /** The queue, the directories already entered (`seen`) and the entries fit together. */
  ghost predicate Shape(t: Tree, start: Path, entries: seq<Entry>, pending: seq<Pending>, seen: set<Path>) {
    && (forall e :: e in entries ==> e.path != [] && Parent(e.path) in seen)
    && Paths(pending) !! seen
    && Paths(pending) + seen <= Reported(entries) + {start}
    && (forall i, j :: 0 <= i < j < |pending| ==> pending[i].path != pending[j].path)
    && (forall q :: q in pending ==> QueuedDirectory(t, start, q))
  }

  ghost predicate QueuedDirectory(t: Tree, start: Path, q: Pending) {
    q.path in t && t[q.path].Directory? && start <= q.path && q.depth == |q.path| - |start|
  }

  /** Children of finished directories are reported. */
  ghost predicate Finished(t: Tree, c: Effective, start: Path, entries: seq<Entry>, done: set<Path>)
    requires Complete(c)
  {
    forall p :: p in t && p != [] && Beneath(p, start) && Parent(p) in done && Shown(t, c, p) ==> p in Reported(entries)
  }

  /** Reported directories have been entered or are queued. */
  ghost predicate Pursued(t: Tree, start: Path, entries: seq<Entry>, pending: seq<Pending>, seen: set<Path>, recursive: bool) {
    && start in seen + Paths(pending)
    && (recursive ==> forall p :: p in Reported(entries) && p in t && t[p].Directory? ==> p in seen + Paths(pending))
  }

  /** Nothing queued and nothing skipped: everything shown beneath the start is reported. */
  lemma {:induction false} AllReported(t: Tree, c: Effective, start: Path, entries: seq<Entry>, done: set<Path>, p: Path)
    requires IsTree(t) && Complete(c) && start in t
    requires Finished(t, c, start, entries, done) && Pursued(t, start, entries, [], done, true)
    requires p in t && Beneath(p, start) && Shown(t, c, p)
    ensures p in Reported(entries)
    decreases |p|
  {
    assert Paths([]) == {};
    if Parent(p) != start {
      assert Beneath(Parent(p), start);
      AncestorsAreShown(t, c, p, Parent(p));
      AllReported(t, c, start, entries, done, Parent(p));
    }
  }

  lemma ReportsAll(t: Tree, c: Effective, start: Path, entries: seq<Entry>, done: set<Path>, recursive: bool)
    requires IsTree(t) && Complete(c) && start in t && Sound(t, c, start, entries) && Finished(t, c, start, entries, done)
    requires if recursive then Pursued(t, start, entries, [], done, true) else done == {start}
    ensures forall p :: p in t && Beneath(p, start) && (recursive || |p| == |start| + 1) ==>
                          (p in Reported(entries) <==> Shown(t, c, p))
  {
    forall p | p in t && Beneath(p, start) && (recursive || |p| == |start| + 1)
      ensures p in Reported(entries) <==> Shown(t, c, p)
    {
      assert |p| == |start| + 1 ==> Parent(p) == start;
      if p in Reported(entries) {
        var e :| e in entries && e.path == p;
        assert SoundEntry(t, c, start, e);
      } else if Shown(t, c, p) && recursive {
        AllReported(t, c, start, entries, done, p);
      }
    }
  }

  lemma ChainInTree(t: Tree, p: Path, i: nat)
    requires IsTree(t) && i <= |p|
    ensures p in t ==> p[..i] in t && (i < |p| ==> t[p[..i]].Directory?)
    ensures i > 0 && p[..i] in t ==> p[..i - 1] in t && t[p[..i - 1]].Directory?
  {
    if p in t && i < |p| { AncestorIsDirectory(t, p, p[..i]); }
    assert p[..|p|] == p;
    if i > 0 { assert Parent(p[..i]) == p[..i - 1]; }
  }

  lemma RootIsDirectory(t: Tree)
    requires IsTree(t)
    ensures [] in t && t[[]].Directory?
  {
  }

  /** Taking the next directory off the queue. */
  lemma Dequeue(t: Tree, c: Effective, start: Path, entries: seq<Entry>, pending: seq<Pending>, done: set<Path>, recursive: bool)
    requires pending != [] && Shape(t, start, entries, pending, done) && Pursued(t, start, entries, pending, done, recursive)
    ensures var current, rest := pending[0], pending[1..];
            && QueuedDirectory(t, start, current) && current.path !in done + Paths(rest)
            && current.path in Reported(entries) + {start}
            && Shape(t, start, entries, rest, done)
            && Pursued(t, start, entries, rest, done + {current.path}, recursive)
  {
    PathsShrink(pending);
    var current, rest := pending[0], pending[1..];
    assert current in pending;
    assert forall q :: q in rest ==> q in pending;
    assert current.path !in Paths(rest) by {
      assert forall i :: 0 <= i < |rest| ==> rest[i] == pending[i + 1];
    }
  }

  lemma StartingShape(t: Tree, c: Effective, start: Path, recursive: bool)
    requires Complete(c) && start in t && t[start].Directory?
    ensures Sound(t, c, start, []) && Shape(t, start, [], [Pending(start, 0)], {})
    ensures Finished(t, c, start, [], {}) && Pursued(t, start, [], [Pending(start, 0)], {}, recursive)
  {
    assert Paths([Pending(start, 0)]) == {start};
  }

  /** No child of a directory is reported before the directory is entered. */
  lemma EnterDirectory(t: Tree, start: Path, entries: seq<Entry>, queue: seq<Pending>, seen: set<Path>, d: Path)
    requires Shape(t, start, entries, queue, seen) && d !in seen + Paths(queue) && d in Reported(entries) + {start}
    ensures Shape(t, start, entries, queue, seen + {d})
    ensures forall name :: d + [name] !in Reported(entries)
  {
    forall name
      ensures d + [name] !in Reported(entries)
    {
      assert Parent(d + [name]) == d;
    }
  }

  /** Reporting one more shown child of the directory being listed. */
  lemma AddKeeps(t: Tree, start: Path, current: Pending, entries: seq<Entry>, pending: seq<Pending>, seen: set<Path>,
                 e: Entry, recursive: bool)
    requires QueuedDirectory(t, start, current) && current.path in seen
    requires e.path != [] && e.path in t && Parent(e.path) == current.path && e.path !in Reported(entries) && Beneath(e.path, start)
    requires Shape(t, start, entries, pending, seen) && Pursued(t, start, entries, pending, seen, recursive)
    ensures var queue := if recursive && t[e.path].Directory? then pending + [Pending(e.path, current.depth + 1)] else pending;
            && Shape(t, start, entries + [e], queue, seen) && Pursued(t, start, entries + [e], queue, seen, recursive)
            && Reported(entries + [e]) == Reported(entries) + {e.path}
  {
    ReportedGrows(entries, e);
    ShapeWithEntry(t, start, entries, pending, seen, e);
    PathsGrow(pending, Pending(e.path, current.depth + 1));
    if recursive && t[e.path].Directory? {
      ShapeWithQueued(t, start, entries, entries + [e], pending, seen, Pending(e.path, current.depth + 1));
    }
  }

  lemma ShapeWithEntry(t: Tree, start: Path, entries: seq<Entry>, pending: seq<Pending>, seen: set<Path>, e: Entry)
    requires Shape(t, start, entries, pending, seen) && e.path != [] && Parent(e.path) in seen
    ensures Shape(t, start, entries + [e], pending, seen)
  {
    ReportedGrows(entries, e);
  }

  lemma ShapeWithQueued(t: Tree, start: Path, before: seq<Entry>, entries: seq<Entry>, pending: seq<Pending>, seen: set<Path>, q: Pending)
    requires Shape(t, start, before, pending, seen) && Shape(t, start, entries, pending, seen)
    requires QueuedDirectory(t, start, q) && q.path !in Reported(before) && q.path != start && q.path in Reported(entries)
    ensures Shape(t, start, entries, pending + [q], seen)
  {
    PathsGrow(pending, q);
    assert q.path !in Paths(pending) + seen;
    forall i | 0 <= i < |pending|
      ensures pending[i].path != q.path
    {
      assert pending[i] in pending;
    }
  }

  /** The children of a directory that has just been gone through are reported. */
  lemma ChildrenFinish(t: Tree, c: Effective, start: Path, before: seq<Entry>, entries: seq<Entry>, names: seq<JsString>,
                       d: Path, seen: set<Path>)
    requires IsTree(t) && Complete(c) && Finished(t, c, start, before, seen) && Reported(before) <= Reported(entries)
    requires (forall name :: name in names <==> d + [name] in t) && Behind(t, c, d, names, |names|, entries)
    ensures Finished(t, c, start, entries, seen + {d})
  {
    hide Shown, IsTree;
    forall p | p in t && p != [] && Beneath(p, start) && Parent(p) in seen + {d} && Shown(t, c, p)
      ensures p in Reported(entries)
    {
      if Parent(p) !in seen {
        var name := p[|p| - 1];
        assert p == d + [name];
        assert name in names;
      }
    }
  }

  // ----- the order of the entries

  ghost predicate EntriesOrdered(entries: seq<Entry>) {
    forall i, j :: 0 <= i < j < |entries| ==> Precedes(entries[i].path, entries[j].path)
  }

  /** Entries, queue and entered directories are all in breadth-first order. */
  ghost predicate Ranked(entries: seq<Entry>, pending: seq<Pending>, seen: set<Path>) {
    && EntriesOrdered(entries)
    && (forall i, j :: 0 <= i < j < |pending| ==> Precedes(pending[i].path, pending[j].path))
    && (forall d, q :: d in seen && q in pending ==> Precedes(d, q.path))
  }

  ghost predicate AllPrecede(entries: seq<Entry>, p: Path) { forall e :: e in entries ==> Precedes(e.path, p) }

  /** Every entry comes before each child from the k-th on. */
  ghost predicate Leads(entries: seq<Entry>, d: Path, names: seq<JsString>, k: nat) {
    forall j :: k <= j < |names| ==> AllPrecede(entries, d + [names[j]])
  }

  lemma StartingRank(start: Path)
    ensures Ranked([], [Pending(start, 0)], {})
  {
  }

  /** Taking the first directory off an ordered queue. */
  lemma DequeueRanked(entries: seq<Entry>, pending: seq<Pending>, done: set<Path>)
    requires pending != [] && Ranked(entries, pending, done)
    ensures Ranked(entries, pending[1..], done + {pending[0].path})
    ensures forall d :: d in done ==> Precedes(d, pending[0].path)
  {
    hide Precedes;
    assert pending[0] in pending;
    assert forall q :: q in pending[1..] ==> q in pending;
  }

  /** What was reported before a directory is entered comes before all its children. */
  lemma LeadsChildren(t: Tree, start: Path, entries: seq<Entry>, queue: seq<Pending>, seen: set<Path>, d: Path)
    requires Shape(t, start, entries, queue, seen) && forall s :: s in seen ==> Precedes(s, d)
    ensures forall name :: AllPrecede(entries, d + [name])
  {
    hide Precedes;
    forall name, e | e in entries
      ensures Precedes(e.path, d + [name])
    {
      ChildrenFollow(e.path, d, name);
    }
  }

  lemma LeadsOn(entries: seq<Entry>, d: Path, names: seq<JsString>, k: nat)
    requires k < |names| && StrictlySorted(names) && Leads(entries, d, names, k)
    ensures Leads(entries, d, names, k + 1) && AllPrecede(entries, d + [names[k]])
    ensures forall e: Entry :: e.path == d + [names[k]] ==> Leads(entries + [e], d, names, k + 1)
  {
    hide Precedes;
    forall e: Entry, j | e.path == d + [names[k]] && k < j < |names|
      ensures AllPrecede(entries + [e], d + [names[j]])
    {
      assert Parent(e.path) == d;
      ChildrenFollow(e.path, d, names[j]);
      assert AllPrecede(entries, d + [names[j]]);
    }
  }

  /** One more entry, after all others, and at the end of the queue if it is to be entered. */
  lemma AddKeepsRank(t: Tree, start: Path, entries: seq<Entry>, pending: seq<Pending>, seen: set<Path>, d: Path, e: Entry, q: Pending)
    requires Ranked(entries, pending, seen) && Shape(t, start, entries, pending, seen) && AllPrecede(entries, e.path)
    requires e.path != [] && Parent(e.path) == d && q.path == e.path && |start| < |e.path|
    requires forall s :: s in seen ==> |s| <= |d|
    ensures Ranked(entries + [e], pending, seen) && Ranked(entries + [e], pending + [q], seen)
  {
    EntriesStayOrdered(entries, e);
    QueueStaysOrdered(t, start, entries, pending, seen, q);
    forall s, r | s in seen && r in pending + [q]
      ensures Precedes(s, r.path)
    {
      if r !in pending { assert r == q; }
    }
  }

  lemma EntriesStayOrdered(entries: seq<Entry>, e: Entry)
    requires EntriesOrdered(entries) && AllPrecede(entries, e.path)
    ensures EntriesOrdered(entries + [e])
  {
    hide Precedes;
    assert forall i :: 0 <= i < |entries| ==> entries[i] in entries;
  }

  lemma QueueStaysOrdered(t: Tree, start: Path, entries: seq<Entry>, pending: seq<Pending>, seen: set<Path>, q: Pending)
    requires Ranked(entries, pending, seen) && Shape(t, start, entries, pending, seen) && AllPrecede(entries, q.path)
    requires |start| < |q.path|
    ensures forall i, j :: 0 <= i < j < |pending + [q]| ==> Precedes((pending + [q])[i].path, (pending + [q])[j].path)
  {
    hide EarlierInLevel;
    forall i | 0 <= i < |pending|
      ensures Precedes(pending[i].path, q.path)
    {
      assert pending[i] in pending && pending[i].path in Paths(pending);
      if pending[i].path != start {
        assert pending[i].path in Reported(entries);
        var e :| e in entries && e.path == pending[i].path;
      }
    }
  }

  /** A path the listing was asked for. */
  ghost predicate InScope(t: Tree, start: Path, recursive: bool, p: Path) {
    p in t && Beneath(p, start) && (recursive || |p| == |start| + 1)
  }

  /** What was left out comes after what was reported. */
  ghost predicate InitialSegment(t: Tree, c: Effective, start: Path, recursive: bool, entries: seq<Entry>)
    requires Complete(c)
  {
    forall p :: InScope(t, start, recursive, p) && Shown(t, c, p) && p !in Reported(entries) ==> AllPrecede(entries, p)
  }

  /** The children of the directory at which the listing stopped. */
  ghost predicate RestFollows(t: Tree, c: Effective, entries: seq<Entry>, d: Path)
    requires Complete(c)
  {
    forall p :: p in t && p != [] && Parent(p) == d && Shown(t, c, p) && p !in Reported(entries) ==> AllPrecede(entries, p)
  }

  lemma RestAhead(t: Tree, c: Effective, entries: seq<Entry>, d: Path)
    requires Complete(c) && forall name :: AllPrecede(entries, d + [name])
    ensures RestFollows(t, c, entries, d)
  {
    hide Shown;
    forall p | p in t && p != [] && Parent(p) == d
      ensures AllPrecede(entries, p)
    {
      assert p == d + [p[|p| - 1]];
    }
  }

  lemma RestOfNames(t: Tree, c: Effective, entries: seq<Entry>, d: Path, names: seq<JsString>, k: nat)
    requires Complete(c) && k <= |names| && (forall name :: name in names <==> d + [name] in t)
    requires Behind(t, c, d, names, k, entries) && Leads(entries, d, names, k)
    ensures RestFollows(t, c, entries, d)
  {
    hide Shown;
    forall p | p in t && p != [] && Parent(p) == d && Shown(t, c, p) && p !in Reported(entries)
      ensures AllPrecede(entries, p)
    {
      assert p == d + [p[|p| - 1]];
      assert p[|p| - 1] in names;
      var j :| 0 <= j < |names| && names[j] == p[|p| - 1];
    }
  }

  /** Wherever the listing stops, whatever is shown and not reported comes later. */
  lemma {:induction false} LeftOutFollows(t: Tree, c: Effective, start: Path, recursive: bool, entries: seq<Entry>, pending: seq<Pending>,
                                          done: set<Path>, d: Path, p: Path)
    requires IsTree(t) && Complete(c) && start in t && Shape(t, start, entries, pending, done + {d})
    requires Finished(t, c, start, entries, done) && RestFollows(t, c, entries, d) && Ranked(entries, pending, done + {d})
    requires Pursued(t, start, entries, pending, done + {d}, recursive) && (!recursive ==> d == start)
    requires InScope(t, start, recursive, p) && Shown(t, c, p) && p !in Reported(entries)
    ensures AllPrecede(entries, p)
    decreases |p|
  {
    hide Shown, IsTree, EarlierInLevel;
    var up := Parent(p);
    UpIsAbove(t, start, p);
    if up == d || up in done {
      assert up != d ==> p in Reported(entries);
    } else if up == start || up in Reported(entries) {
      assert !recursive ==> up == start;
      assert up in Paths(pending);
      PendingFollows(t, start, entries, pending, done + {d}, up);
    } else {
      AncestorsAreShown(t, c, p, up);
      LeftOutFollows(t, c, start, recursive, entries, pending, done, d, up);
    }
  }

  lemma UpIsAbove(t: Tree, start: Path, p: Path)
    requires IsTree(t) && p in t && Beneath(p, start)
    ensures p != [] && Parent(p) in t && t[Parent(p)].Directory? && start <= Parent(p) && |Parent(p)| < |p|
    ensures Parent(p) != start ==> Beneath(Parent(p), start) && Parent(p) != [] && Parent(p) <= p && Parent(p) != p
    ensures |p| == |start| + 1 ==> Parent(p) == start
  {
  }

  lemma PendingFollows(t: Tree, start: Path, entries: seq<Entry>, pending: seq<Pending>, seen: set<Path>, up: Path)
    requires Shape(t, start, entries, pending, seen) && Ranked(entries, pending, seen) && up in Paths(pending)
    ensures forall p :: p != [] && Parent(p) == up ==> AllPrecede(entries, p)
  {
    hide Precedes, Shape, Ranked;
    EntriesAreEarlier(t, start, entries, pending, seen, up);
    forall p: Path | p != [] && Parent(p) == up
      ensures AllPrecede(entries, p)
    {
      assert p == up + [p[|p| - 1]];
      EntriesPrecedeChild(entries, up, p[|p| - 1]);
    }
  }

  lemma EntriesAreEarlier(t: Tree, start: Path, entries: seq<Entry>, pending: seq<Pending>, seen: set<Path>, up: Path)
    requires Shape(t, start, entries, pending, seen) && Ranked(entries, pending, seen) && up in Paths(pending)
    ensures forall e :: e in entries ==> e.path != [] && Precedes(Parent(e.path), up)
  {
    hide Precedes;
    var q :| q in pending && q.path == up;
  }

  lemma EntriesPrecedeChild(entries: seq<Entry>, up: Path, name: JsString)
    requires forall e :: e in entries ==> e.path != [] && Precedes(Parent(e.path), up)
    ensures AllPrecede(entries, up + [name])
  {
    hide Precedes;
    forall e | e in entries
      ensures Precedes(e.path, up + [name])
    {
      ChildrenFollow(e.path, up, name);
    }
  }

  /** Two complete listings of the same place are the same list, however the file system names
      the children of a directory. */
  lemma CompleteListingIsUnique(t: Tree, c: Effective, start: Path, recursive: bool, a: seq<Entry>, b: seq<Entry>)
    requires Complete(c) && Sound(t, c, start, a) && Sound(t, c, start, b) && EntriesOrdered(a) && EntriesOrdered(b)
    requires recursive || ((forall e :: e in a ==> |e.path| == |start| + 1) && (forall e :: e in b ==> |e.path| == |start| + 1))
    requires forall p :: InScope(t, start, recursive, p) ==> (p in Reported(a) <==> Shown(t, c, p))
    requires forall p :: InScope(t, start, recursive, p) ==> (p in Reported(b) <==> Shown(t, c, p))
    ensures a == b
  {
    hide Shown, Precedes;
    EntryPathsAre(a);
    EntryPathsAre(b);
    forall p
      ensures p in Reported(a) <==> p in Reported(b)
    {
      if p in Reported(a) { var e :| e in a && e.path == p; assert InScope(t, start, recursive, p); }
      if p in Reported(b) { var e :| e in b && e.path == p; assert InScope(t, start, recursive, p); }
    }
    OrderedUnique(EntryPaths(a), EntryPaths(b));
    forall i | 0 <= i < |a|
      ensures a[i] == b[i]
    {
      assert a[i] in a && b[i] in b && EntryPaths(a)[i] == EntryPaths(b)[i];
    }
  }

  function EntryPaths(entries: seq<Entry>): (r: seq<Path>)
    ensures |r| == |entries| && forall i :: 0 <= i < |r| ==> r[i] == entries[i].path
  {
    seq(|entries|, i requires 0 <= i < |entries| => entries[i].path)
  }

  lemma EntryPathsAre(entries: seq<Entry>)
    ensures forall p :: p in EntryPaths(entries) <==> p in Reported(entries)
    ensures EntriesOrdered(entries) ==> Ordered(EntryPaths(entries))
  {
    hide Precedes;
    forall p
      ensures p in EntryPaths(entries) <==> p in Reported(entries)
    {
      if p in Reported(entries) { var e :| e in entries && e.path == p; }
      if p in EntryPaths(entries) { var i :| 0 <= i < |entries| && entries[i].path == p; assert entries[i] in entries; }
    }
  }

  lemma RankedIsOrdered(entries: seq<Entry>, pending: seq<Pending>, seen: set<Path>)
    ensures Ranked(entries, pending, seen) ==> EntriesOrdered(entries)
  {
  }

  // ----- one directory

  /** The children from the k-th on have not been reported. */
  ghost predicate Ahead(d: Path, names: seq<JsString>, k: nat, entries: seq<Entry>) {
    forall j :: k <= j < |names| ==> d + [names[j]] !in Reported(entries)
  }

  /** Of the children before the k-th, every one that is shown has been reported. */
  ghost predicate Behind(t: Tree, c: Effective, d: Path, names: seq<JsString>, k: nat, entries: seq<Entry>)
    requires Complete(c) && k <= |names| && forall name :: name in names ==> d + [name] in t
  {
    forall j :: 0 <= j < k && Shown(t, c, d + [names[j]]) ==> d + [names[j]] in Reported(entries)
  }

  lemma NothingListed(t: Tree, c: Effective, d: Path, names: seq<JsString>, entries: seq<Entry>)
    requires Complete(c) && (forall name :: name in names ==> d + [name] in t) && forall name :: d + [name] !in Reported(entries)
    ensures Ahead(d, names, 0, entries) && Behind(t, c, d, names, 0, entries)
  {
  }

  lemma OneSkipped(t: Tree, c: Effective, d: Path, names: seq<JsString>, k: nat, entries: seq<Entry>)
    requires Complete(c) && k < |names| && (forall name :: name in names ==> d + [name] in t) && Ahead(d, names, k, entries)
    ensures Ahead(d, names, k + 1, entries) && d + [names[k]] !in Reported(entries)
    ensures Behind(t, c, d, names, k, entries) && !Shown(t, c, d + [names[k]]) ==> Behind(t, c, d, names, k + 1, entries)
  {
    hide Shown;
  }

  lemma OneAdded(t: Tree, c: Effective, d: Path, names: seq<JsString>, k: nat, entries: seq<Entry>, e: Entry)
    requires Complete(c) && k < |names| && (forall name :: name in names ==> d + [name] in t) && Ahead(d, names, k, entries)
    requires e.path == d + [names[k]] && forall i, j :: 0 <= i < j < |names| ==> names[i] != names[j]
    ensures Ahead(d, names, k + 1, entries + [e])
    ensures Behind(t, c, d, names, k, entries) ==> Behind(t, c, d, names, k + 1, entries + [e])
  {
    hide Shown;
    ReportedGrows(entries, e);
    forall j | k < j < |names|
      ensures d + [names[j]] != e.path
    {
      assert (d + [names[j]])[|d|] == names[j] && e.path[|d|] == names[k];
    }
  }

  /** What becomes of one discovered child. */
  datatype Verdict = Skip | Cut(stop: bool) | Add(entry: Entry)

  class FilesystemSandbox {
    const nodes: Tree
    const listing: map<Path, seq<JsString>>
    const unreadable: set<Path>
    const constraints: Effective
    const outputBytes: (seq<Entry>, bool) -> nat
    var visitedEntries: nat
    var visitedFiles: nat
    var visitedDirectories: nat

    ghost predicate Valid() {
      && IsTree(nodes) && NamesChildren(nodes, listing) && Complete(constraints)
    }

    constructor (nodes: Tree, listing: map<Path, seq<JsString>>, unreadable: set<Path>, constraints: Effective,
                 outputBytes: (seq<Entry>, bool) -> nat)
      requires IsTree(nodes) && NamesChildren(nodes, listing) && Complete(constraints)
      ensures Valid() && this.nodes == nodes && this.constraints == constraints
    {
      this.nodes, this.listing, this.unreadable, this.constraints := nodes, listing, unreadable, constraints;
      this.outputBytes := outputBytes;
      visitedEntries, visitedFiles, visitedDirectories := 0, 0, 0;
    }

    /** A directory the caller may list. */
    ghost predicate Listable(path: Path)
      requires Complete(constraints)
    {
      path in nodes && nodes[path].Directory? && !ClassifyVisible(Join(path), constraints).Denied?
    }

    /** A reason to stop: some budget is used up, or something shown lies too deep or is too
        large to report. */
    ghost predicate Exhausted(start: Path, entries: seq<Entry>)
      requires Complete(constraints)
      reads this
    {
      || visitedDirectories >= constraints.limits[MaxVisitedDirectories]
      || visitedEntries >= constraints.limits[MaxVisitedEntries]
      || visitedFiles >= constraints.limits[MaxVisitedFiles]
      || |entries| >= constraints.limits[MaxResults]
      || SomeUnfit(start, entries)
    }

    ghost predicate SomeUnfit(start: Path, entries: seq<Entry>)
      requires Complete(constraints)
    {
      exists p :: p in nodes && Beneath(p, start) && p !in Reported(entries) && Unfit(start, entries, p)
    }

    ghost predicate Unfit(start: Path, entries: seq<Entry>, p: Path)
      requires Complete(constraints) && p in nodes
    {
      && Shown(nodes, constraints, p)
      && (|| |p| - |start| > constraints.limits[MaxDepth]
          || outputBytes(entries + [EntryFor(p, nodes[p])], false) > constraints.limits[MaxOutputBytes])
    }

    /** Walks down from the root, refusing links on the way. */
    method Inspect(path: Path) returns (r: Result<Node, ListError>)
      requires Valid()
      ensures r.Err? ==> !r.error.InvalidPath? && !r.error.OutputTooLarge? && (r.error.Unreadable? ==> unreadable != {})
      ensures r.Ok? ==> path in nodes && r.value == nodes[path] && !nodes[path].Symlink? && !Sensitive(Join(path), constraints.deniedPaths)
      ensures r.Err? && path in nodes && !nodes[path].Symlink? && !Sensitive(Join(path), constraints.deniedPaths) ==>
                r.error == Unreadable
    {
      hide Sensitive, Join, IsTree;
      if Sensitive(Join(path), constraints.deniedPaths) {
        return Err(SensitivePath);
      }
      var i := 0;
      ChainInTree(nodes, path, 0);
      assert path[..0] == [] && path[..|path|] == path;
      RootIsDirectory(nodes);
      while i < |path|
        invariant 0 <= i <= |path|
        invariant path[..i] in nodes && !nodes[path[..i]].Symlink? && (i < |path| ==> nodes[path[..i]].Directory?)
      {
        i := i + 1;
        ChainInTree(nodes, path, i);
        if path[..i] in unreadable {
          return Err(Unreadable);
        }
        if path[..i] !in nodes {
          return Err(NotFound);
        }
        if nodes[path[..i]].Symlink? {
          return Err(SymlinkDenied);
        }
        if i < |path| && !nodes[path[..i]].Directory? {
          return Err(NotADirectory);
        }
      }
      return Ok(nodes[path]);
    }

    /** One directory's names, sorted; none at all once a budget runs out. */
    method ReadBoundedDirectory(path: Path) returns (r: Result<(seq<JsString>, bool), ListError>)
      requires Valid()
      requires visitedEntries <= constraints.limits[MaxVisitedEntries]
      requires visitedDirectories <= constraints.limits[MaxVisitedDirectories]
      modifies this
      ensures visitedEntries <= constraints.limits[MaxVisitedEntries]
      ensures visitedDirectories <= constraints.limits[MaxVisitedDirectories]
      ensures visitedFiles == old(visitedFiles)
      ensures r.Ok? && !r.value.1 ==>
                && visitedDirectories == old(visitedDirectories) + 1
                && path in nodes && nodes[path].Directory? && r.value.0 == SortStrings(listing[path])
      ensures r.Ok? && r.value.1 ==>
                && r.value.0 == []
                && (visitedDirectories >= constraints.limits[MaxVisitedDirectories]
                    || visitedEntries >= constraints.limits[MaxVisitedEntries])
      ensures r.Err? ==> !r.error.InvalidPath? && !r.error.OutputTooLarge? && (Listable(path) ==> unreadable != {})
    {
      hide Sensitive, Normalizable, Classify, Join, SortStrings, IsTree;
      if visitedDirectories >= constraints.limits[MaxVisitedDirectories] || visitedEntries >= constraints.limits[MaxVisitedEntries] {
        return Ok(([], true));
      }
      var inspected := Inspect(path);
      if inspected.Err? {
        return Err(inspected.error);
      }
      if !inspected.value.Directory? {
        return Err(NotADirectory);
      }
      if ClassifyVisible(Join(path), constraints).Denied? {
        return Err(SensitivePath);
      }
      visitedDirectories := visitedDirectories + 1;
      var names: seq<JsString> := [];
      while true
        invariant |names| <= |listing[path]| && names == listing[path][..|names|]
        invariant visitedEntries <= constraints.limits[MaxVisitedEntries]
        invariant visitedDirectories == old(visitedDirectories) + 1 && visitedFiles == old(visitedFiles)
        decreases |listing[path]| - |names|
      {
        if visitedEntries >= constraints.limits[MaxVisitedEntries] {
          return Ok(([], true));
        }
        if |names| == |listing[path]| {
          break;
        }
        visitedEntries := visitedEntries + 1;
        names := names + [listing[path][|names|]];
      }
      assert listing[path][..|listing[path]|] == listing[path];
      return Ok((SortStrings(names), false));
    }

    /** Decides one child of a directory being listed. Only hidden children are skipped. */
    method Consider(path: Path, depth: nat, entries: seq<Entry>) returns (r: Result<Verdict, ListError>)
      requires Valid() && path in nodes && path != []
      requires visitedFiles <= constraints.limits[MaxVisitedFiles]
      modifies this`visitedFiles
      ensures visitedFiles <= constraints.limits[MaxVisitedFiles]
      ensures r.Ok? && r.value.Skip? ==> !Shown(nodes, constraints, path)
      ensures r.Ok? && r.value.Add? ==>
                && Shown(nodes, constraints, path) && r.value.entry == EntryFor(path, nodes[path])
                && depth <= constraints.limits[MaxDepth] && |entries| < constraints.limits[MaxResults]
      ensures r.Ok? && r.value.Cut? ==>
                || visitedFiles >= constraints.limits[MaxVisitedFiles]
                || (&& Shown(nodes, constraints, path)
                    && (|| depth > constraints.limits[MaxDepth] || |entries| >= constraints.limits[MaxResults]
                        || outputBytes(entries + [EntryFor(path, nodes[path])], false) > constraints.limits[MaxOutputBytes]))
      ensures r.Ok? && r.value.Cut? && !r.value.stop ==>
                Shown(nodes, constraints, path) && depth > constraints.limits[MaxDepth]
      ensures r.Err? ==> unreadable != {} && !r.error.InvalidPath? && !r.error.OutputTooLarge?
    {
      hide Normalizable, Sensitive, Classify, ExtensionPermitted, Join;
      if !Normalizable(Join(path), LimitsOf(constraints), false) {
        return Ok(Skip);
      }
      var discovered := Inspect(path);
      if discovered.Err? {
        return if discovered.error.Unreadable? then Err(Unreadable) else Ok(Skip);
      }
      var node := discovered.value;
      var c := ClassifyVisible(Join(path), constraints);
      if c.Denied? || (node.File? && !c.Inside?) || (node.File? && node.links > 1) || (!node.File? && !node.Directory?) {
        return Ok(Skip);
      }
      if node.File? {
        if visitedFiles >= constraints.limits[MaxVisitedFiles] {
          return Ok(Cut(true));
        }
        visitedFiles := visitedFiles + 1;
        if !ExtensionPermitted(Join(path), constraints) {
          return Ok(Skip);
        }
      }
      if depth > constraints.limits[MaxDepth] {
        return Ok(Cut(false));
      }
      var entry := EntryFor(path, node);
      if |entries| >= constraints.limits[MaxResults] || outputBytes(entries + [entry], false) > constraints.limits[MaxOutputBytes] {
        return Ok(Cut(true));
      }
      return Ok(Add(entry));
    }

    /** Goes through the children of one directory. */
    method ListChildren(start: Path, current: Pending, names: seq<JsString>, before: seq<Entry>, queue: seq<Pending>,
                        recursive: bool, ghost seen: set<Path>)
      returns (r: Result<(seq<Entry>, seq<Pending>, bool), ListError>)
      requires Valid() && QueuedDirectory(nodes, start, current) && current.path !in seen + Paths(queue)
      requires current.path in Reported(before) + {start}
      requires forall name :: name in names <==> current.path + [name] in nodes
      requires forall i, j :: 0 <= i < j < |names| ==> names[i] != names[j]
      requires Sound(nodes, constraints, start, before) && |before| <= constraints.limits[MaxResults]
      requires Shape(nodes, start, before, queue, seen) && visitedFiles <= constraints.limits[MaxVisitedFiles]
      requires Finished(nodes, constraints, start, before, seen)
      requires Pursued(nodes, start, before, queue, seen + {current.path}, recursive)
      requires Ranked(before, queue, seen + {current.path}) && StrictlySorted(names)
      requires forall d :: d in seen ==> Precedes(d, current.path)
      modifies this`visitedFiles
      ensures visitedFiles <= constraints.limits[MaxVisitedFiles]
      ensures r.Ok? ==>
                && before <= r.value.0 && Sound(nodes, constraints, start, r.value.0) && |r.value.0| <= constraints.limits[MaxResults]
                && (forall i :: |before| <= i < |r.value.0| ==> |r.value.0[i].path| == |current.path| + 1)
                && Shape(nodes, start, r.value.0, r.value.1, seen + {current.path})
                && (!recursive ==> r.value.1 == queue)
                && Ranked(r.value.0, r.value.1, seen + {current.path}) && RestFollows(nodes, constraints, r.value.0, current.path)
                && Pursued(nodes, start, r.value.0, r.value.1, seen + {current.path}, recursive)
                && Finished(nodes, constraints, start, r.value.0, seen)
      ensures r.Ok? ==> if r.value.2 then Exhausted(start, r.value.0)
                        else Finished(nodes, constraints, start, r.value.0, seen + {current.path})
      ensures r.Err? ==> unreadable != {} && !r.error.InvalidPath? && !r.error.OutputTooLarge?
    {
      hide Shown, Sound, Finished, Shape, Pursued, IsTree, NamesChildren, Ahead, Behind, Ranked, Leads, RestFollows, AllPrecede,
           Precedes, Reported, FilesystemSandbox.Exhausted, FilesystemSandbox.SomeUnfit;
      var entries, pending, truncated := before, queue, false;
      ghost var now := seen + {current.path};
      EnterDirectory(nodes, start, before, queue, seen, current.path);
      NothingListed(nodes, constraints, current.path, names, before);
      LeadsChildren(nodes, start, before, queue, seen, current.path);
      LeadsAll(before, current.path, names);
      ShorterAreBefore(seen, current.path);
      for k := 0 to |names|
        invariant visitedFiles <= constraints.limits[MaxVisitedFiles]
        invariant before <= entries && |entries| <= constraints.limits[MaxResults]
        invariant Sound(nodes, constraints, start, entries)
        invariant forall i :: |before| <= i < |entries| ==> |entries[i].path| == |current.path| + 1
        invariant Shape(nodes, start, entries, pending, now)
        invariant !recursive ==> pending == queue
        invariant Pursued(nodes, start, entries, pending, now, recursive)
        invariant Reported(before) <= Reported(entries)
        invariant Ahead(current.path, names, k, entries)
        invariant !truncated ==> Behind(nodes, constraints, current.path, names, k, entries)
        invariant Ranked(entries, pending, now) && Leads(entries, current.path, names, k)
        invariant entries != before ==> current.depth + 1 <= constraints.limits[MaxDepth]
        invariant truncated ==> current.depth + 1 > constraints.limits[MaxDepth] && SomeUnfit(start, entries)
      {
        var path := current.path + [names[k]];
        assert names[k] in names;
        assert Parent(path) == current.path;
        OneSkipped(nodes, constraints, current.path, names, k, entries);
        LeadsOn(entries, current.path, names, k);
        var verdict := Consider(path, current.depth + 1, entries);
        if verdict.Err? {
          return Err(verdict.error);
        }
        match verdict.value {
          case Skip =>
          case Cut(stop) =>
            CutIsExhausted(start, entries, path, current.depth + 1);
            if stop {
              StopsAt(before, entries, current.path, names, k, truncated);
              FinishedStays(start, before, entries, seen);
              return Ok((entries, pending, true));
            }
            truncated := true;
          case Add(entry) =>
            AddKeepsAll(start, current, names, k, entries, pending, now, entry, recursive);
            entries := entries + [entry];
            if recursive && nodes[path].Directory? {
              pending := pending + [Pending(path, current.depth + 1)];
            }
        }
      }
      StopsAt(before, entries, current.path, names, |names|, truncated);
      FinishedStays(start, before, entries, seen);
      if truncated {
        UnfitIsExhausted(start, entries);
      } else {
        ChildrenFinish(nodes, constraints, start, before, entries, names, current.path, seen);
      }
      return Ok((entries, pending, truncated));
    }

    lemma LeadsAll(entries: seq<Entry>, d: Path, names: seq<JsString>)
      requires forall name :: AllPrecede(entries, d + [name])
      ensures Leads(entries, d, names, 0)
    {
      hide AllPrecede;
    }

    lemma CutIsExhausted(start: Path, entries: seq<Entry>, p: Path, depth: nat)
      requires Valid() && p in nodes && Beneath(p, start) && p !in Reported(entries) && depth == |p| - |start|
      ensures visitedFiles >= constraints.limits[MaxVisitedFiles] || |entries| >= constraints.limits[MaxResults] ==> Exhausted(start, entries)
      ensures Unfit(start, entries, p) ==> SomeUnfit(start, entries) && Exhausted(start, entries)
    {
    }

    lemma UnfitIsExhausted(start: Path, entries: seq<Entry>)
      requires Valid() && SomeUnfit(start, entries)
      ensures Exhausted(start, entries)
    {
    }

    lemma FinishedStays(start: Path, before: seq<Entry>, entries: seq<Entry>, seen: set<Path>)
      requires Valid() && Finished(nodes, constraints, start, before, seen) && Reported(before) <= Reported(entries)
      ensures Finished(nodes, constraints, start, entries, seen)
    {
      hide Shown;
    }

    /** What is left of the directory at which the listing stops comes later. */
    lemma StopsAt(before: seq<Entry>, entries: seq<Entry>, d: Path, names: seq<JsString>, k: nat, truncated: bool)
      requires Valid() && k <= |names| && (forall name :: name in names <==> d + [name] in nodes)
      requires forall name :: AllPrecede(before, d + [name])
      requires Leads(entries, d, names, k)
      requires if truncated then entries == before else Behind(nodes, constraints, d, names, k, entries)
      ensures RestFollows(nodes, constraints, entries, d)
    {
      hide AllPrecede, Leads, Behind, RestFollows;
      if truncated { RestAhead(nodes, constraints, entries, d); } else { RestOfNames(nodes, constraints, entries, d, names, k); }
    }

    lemma QueuedIsListable(start: Path, entries: seq<Entry>, pending: seq<Pending>, seen: set<Path>, q: Pending)
      requires Valid() && Sound(nodes, constraints, start, entries) && Shape(nodes, start, entries, pending, seen) && q in pending
      ensures Listable(start) ==> Listable(q.path)
    {
      hide Normalizable, Sensitive, Classify, ExtensionPermitted, Join;
      assert q.path in Paths(pending) && QueuedDirectory(nodes, start, q);
      if q.path in Reported(entries) {
        var e :| e in entries && e.path == q.path;
        assert SoundEntry(nodes, constraints, start, e);
      }
    }

    lemma StopsInOrder(start: Path, recursive: bool, entries: seq<Entry>, pending: seq<Pending>, done: set<Path>, d: Path)
      requires Valid() && start in nodes && Shape(nodes, start, entries, pending, done + {d})
      requires Finished(nodes, constraints, start, entries, done) && RestFollows(nodes, constraints, entries, d)
      requires Ranked(entries, pending, done + {d}) && Pursued(nodes, start, entries, pending, done + {d}, recursive)
      requires !recursive ==> d == start
      ensures InitialSegment(nodes, constraints, start, recursive, entries)
    {
      hide Shown, Shape, Finished, RestFollows, Ranked, Pursued, IsTree, NamesChildren;
      forall p | InScope(nodes, start, recursive, p) && Shown(nodes, constraints, p) && p !in Reported(entries)
        ensures AllPrecede(entries, p)
      {
        LeftOutFollows(nodes, constraints, start, recursive, entries, pending, done, d, p);
      }
    }

    /** Everything the listing keeps true holds again after one more entry. */
    lemma AddKeepsAll(start: Path, current: Pending, names: seq<JsString>, k: nat, entries: seq<Entry>, pending: seq<Pending>,
                      seen: set<Path>, e: Entry, recursive: bool)
      requires Valid() && QueuedDirectory(nodes, start, current) && current.path in seen && k < |names|
      requires e.path == current.path + [names[k]] && e.path !in Reported(entries)
      requires SoundEntry(nodes, constraints, start, e) && Sound(nodes, constraints, start, entries)
      requires Shape(nodes, start, entries, pending, seen) && Pursued(nodes, start, entries, pending, seen, recursive)
      requires Ranked(entries, pending, seen) && AllPrecede(entries, e.path) && forall s :: s in seen ==> |s| <= |current.path|
      requires (forall name :: name in names <==> current.path + [name] in nodes) && Ahead(current.path, names, k, entries)
      requires forall i, j :: 0 <= i < j < |names| ==> names[i] != names[j]
      ensures var queue := if recursive && nodes[e.path].Directory? then pending + [Pending(e.path, current.depth + 1)] else pending;
              && Sound(nodes, constraints, start, entries + [e]) && Shape(nodes, start, entries + [e], queue, seen)
              && Pursued(nodes, start, entries + [e], queue, seen, recursive) && Ranked(entries + [e], queue, seen)
      ensures Ahead(current.path, names, k + 1, entries + [e]) && Reported(entries) <= Reported(entries + [e])
      ensures Behind(nodes, constraints, current.path, names, k, entries) ==> Behind(nodes, constraints, current.path, names, k + 1, entries + [e])
    {
      hide Shown, Sound, Shape, Pursued, IsTree, NamesChildren, Ahead, Behind, Ranked, AllPrecede, Reported;
      assert Parent(e.path) == current.path;
      AddKeepsRank(nodes, start, entries, pending, seen, current.path, e, Pending(e.path, current.depth + 1));
      AddKeeps(nodes, start, current, entries, pending, seen, e, recursive);
      SoundGrows(start, entries, e);
      OneAdded(nodes, constraints, current.path, names, k, entries, e);
    }

    lemma ShorterAreBefore(seen: set<Path>, d: Path)
      requires forall s :: s in seen ==> Precedes(s, d)
      ensures forall s :: s in seen + {d} ==> |s| <= |d|
    {
    }

    lemma SoundGrows(start: Path, entries: seq<Entry>, e: Entry)
      requires Valid() && Sound(nodes, constraints, start, entries) && SoundEntry(nodes, constraints, start, e)
      requires e.path !in Reported(entries)
      ensures Sound(nodes, constraints, start, entries + [e])
    {
      forall i | 0 <= i < |entries|
        ensures entries[i].path != e.path
      {
        assert entries[i] in entries;
      }
    }

    /** Whether a listing may start here at all. */
    method Preflight(start: Path) returns (refused: Option<ListError>)
      requires Valid()
      ensures refused == Some(InvalidPath) <==> !Normalizable(Join(start), LimitsOf(constraints), true)
      ensures refused.None? ==>
                && start in nodes && nodes[start].Directory? && Listable(start)
                && Normalizable(Join(start), LimitsOf(constraints), true)
      ensures unreadable == {} && Normalizable(Join(start), LimitsOf(constraints), true) && Listable(start) ==> refused.None?
    {
      hide Normalizable, Join, Classify, Sensitive;
      if !Normalizable(Join(start), LimitsOf(constraints), true) {
        return Some(InvalidPath);
      }
      var inspected := Inspect(start);
      if inspected.Err? {
        return Some(inspected.error);
      }
      if ClassifyVisible(Join(start), constraints).Denied? {
        return Some(SensitivePath);
      }
      if !inspected.value.Directory? {
        return Some(NotADirectory);
      }
      return None;
    }

    /** Lists what is beneath `start`, one level or all of them. */
    method List(start: Path, recursive: bool) returns (r: Result<Listing, ListError>)
      requires Valid()
      modifies this
      ensures r.Ok? ==>
                && start in nodes && nodes[start].Directory? && Sound(nodes, constraints, start, r.value.entries)
                && |r.value.entries| <= constraints.limits[MaxResults]
                && visitedDirectories <= constraints.limits[MaxVisitedDirectories]
                && visitedEntries <= constraints.limits[MaxVisitedEntries]
                && visitedFiles <= constraints.limits[MaxVisitedFiles]
                && outputBytes(r.value.entries, r.value.truncated) <= constraints.limits[MaxOutputBytes]
      ensures r.Ok? ==> Normalizable(Join(start), LimitsOf(constraints), true) && Listable(start)
      ensures r == Err(InvalidPath) <==> !Normalizable(Join(start), LimitsOf(constraints), true)
      ensures unreadable == {} && Normalizable(Join(start), LimitsOf(constraints), true) && Listable(start) ==>
                r.Ok? || r == Err(OutputTooLarge)
      ensures r.Ok? ==>
                && EntriesOrdered(r.value.entries) && InitialSegment(nodes, constraints, start, recursive, r.value.entries)
                && (r.value.truncated ==> Exhausted(start, r.value.entries))
      ensures r.Ok? && !recursive ==> forall e :: e in r.value.entries ==> |e.path| == |start| + 1
      ensures r.Ok? && !r.value.truncated ==>
                forall p :: InScope(nodes, start, recursive, p) ==> (p in Reported(r.value.entries) <==> Shown(nodes, constraints, p))
    {
      hide Shown, Normalizable, Join, Classify, Sensitive, Sound, Finished, Shape, Pursued, IsTree, NamesChildren, Ranked, RestFollows,
           InitialSegment, AllPrecede, Precedes, EntriesOrdered, FilesystemSandbox.Exhausted;
      var refused := Preflight(start);
      if refused.Some? {
        return Err(refused.value);
      }
      visitedEntries, visitedFiles, visitedDirectories := 0, 0, 0;
      var entries: seq<Entry> := [];
      var pending := [Pending(start, 0)];
      var truncated := false;
      ghost var done: set<Path> := {};
      StartingShape(nodes, constraints, start, recursive);
      StartingRank(start);
      while pending != []
        invariant visitedEntries <= constraints.limits[MaxVisitedEntries]
        invariant visitedFiles <= constraints.limits[MaxVisitedFiles]
        invariant visitedDirectories <= constraints.limits[MaxVisitedDirectories]
        invariant Sound(nodes, constraints, start, entries) && |entries| <= constraints.limits[MaxResults]
        invariant Shape(nodes, start, entries, pending, done)
        invariant Finished(nodes, constraints, start, entries, done)
        invariant Pursued(nodes, start, entries, pending, done, recursive)
        invariant Ranked(entries, pending, done)
        invariant !recursive ==> entries == [] && pending == [Pending(start, 0)]
        invariant !truncated
        decreases constraints.limits[MaxVisitedDirectories] - visitedDirectories
      {
        var current := pending[0];
        Dequeue(nodes, constraints, start, entries, pending, done, recursive);
        DequeueRanked(entries, pending, done);
        QueuedIsListable(start, entries, pending, done, current);
        pending := pending[1..];
        EnterDirectory(nodes, start, entries, pending, done, current.path);
        var directory := ReadBoundedDirectory(current.path);
        if directory.Err? {
          return Err(directory.error);
        }
        if directory.value.1 {
          StopsBefore(start, recursive, entries, pending, done, current.path);
          BudgetIsExhausted(start, entries);
          done := done + {current.path};
          truncated := true;
          break;
        }
        SortedNamesAreChildren(current.path);
        var children := ListChildren(start, current, directory.value.0, entries, pending, recursive, done);
        if children.Err? {
          return Err(children.error);
        }
        entries, pending, truncated := children.value.0, children.value.1, children.value.2;
        StopsInOrder(start, recursive, entries, pending, done, current.path);
        done := done + {current.path};
        if truncated || !recursive {
          break;
        }
      }
      if outputBytes(entries, truncated) > constraints.limits[MaxOutputBytes] {
        return Err(OutputTooLarge);
      }
      if !truncated {
        ReportsEverything(start, recursive, entries, done);
      }
      RankedIsOrdered(entries, pending, done);
      return Ok(Listing(entries, truncated));
    }

    /** Stopping before a directory is entered leaves out what comes later only. */
    lemma StopsBefore(start: Path, recursive: bool, entries: seq<Entry>, pending: seq<Pending>, done: set<Path>, d: Path)
      requires Valid() && start in nodes && Shape(nodes, start, entries, pending, done + {d})
      requires Shape(nodes, start, entries, pending, done) && forall s :: s in done ==> Precedes(s, d)
      requires Finished(nodes, constraints, start, entries, done)
      requires Ranked(entries, pending, done + {d}) && Pursued(nodes, start, entries, pending, done + {d}, recursive)
      requires !recursive ==> d == start
      ensures InitialSegment(nodes, constraints, start, recursive, entries)
    {
      hide Shape, Precedes, Finished, Ranked, Pursued, InitialSegment, RestFollows, AllPrecede;
      LeadsChildren(nodes, start, entries, pending, done, d);
      RestAhead(nodes, constraints, entries, d);
      StopsInOrder(start, recursive, entries, pending, done, d);
    }

    lemma BudgetIsExhausted(start: Path, entries: seq<Entry>)
      requires Valid()
      ensures visitedDirectories >= constraints.limits[MaxVisitedDirectories] || visitedEntries >= constraints.limits[MaxVisitedEntries] ==>
                Exhausted(start, entries)
    {
    }

    lemma NothingLeftOut(start: Path, recursive: bool, entries: seq<Entry>)
      requires Valid() && forall p :: InScope(nodes, start, recursive, p) ==> (p in Reported(entries) <==> Shown(nodes, constraints, p))
      ensures InitialSegment(nodes, constraints, start, recursive, entries)
    {
      hide Shown;
    }

    /** A listing that was not cut short reports exactly what is shown. */
    lemma ReportsEverything(start: Path, recursive: bool, entries: seq<Entry>, done: set<Path>)
      requires Valid() && start in nodes && Sound(nodes, constraints, start, entries)
      requires Finished(nodes, constraints, start, entries, done)
      requires if recursive then Pursued(nodes, start, entries, [], done, true) else done == {start}
      ensures forall p :: InScope(nodes, start, recursive, p) ==> (p in Reported(entries) <==> Shown(nodes, constraints, p))
      ensures InitialSegment(nodes, constraints, start, recursive, entries)
    {
      hide Shown, Sound, Finished, Pursued, InitialSegment;
      ReportsAll(nodes, constraints, start, entries, done, recursive);
      NothingLeftOut(start, recursive, entries);
    }

    lemma SortedNamesAreChildren(d: Path)
      requires Valid() && d in nodes && nodes[d].Directory?
      ensures forall name :: name in SortStrings(listing[d]) <==> d + [name] in nodes
      ensures forall i, j :: 0 <= i < j < |SortStrings(listing[d])| ==> SortStrings(listing[d])[i] != SortStrings(listing[d])[j]
      ensures StrictlySorted(SortStrings(listing[d]))
    {
      var names := listing[d];
      SortByProperties(Self, names);
      forall i, j | 0 <= i < j < |SortStrings(names)|
        ensures SortStrings(names)[i] != SortStrings(names)[j] && Less(SortStrings(names)[i], SortStrings(names)[j])
      {
        if SortStrings(names)[i] == SortStrings(names)[j] {
          TwoPositions(SortStrings(names), i, j);
          DistinctCount(names, SortStrings(names)[i]);
        }
        LessTotal(SortStrings(names)[i], SortStrings(names)[j]);
        assert !Less(Self(SortStrings(names)[j]), Self(SortStrings(names)[i]));
      }
    }
  }
}
