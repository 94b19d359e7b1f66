/** The checkpoint directory as one publisher works on it, with nobody interfering.
    What several publishers do to the same directory is in CheckpointProtocol. */
module CheckpointDirectories {
  import opened Options
  import opened CheckpointFileNames
  import opened CheckpointFiles

  datatype PruneError = CapTooSmall | UnlinkFailed(seqNo: nat)

  datatype PublishError = LoadFailed(cause: LoadError) | UnreadableLatest | SequenceTaken(seqNo: nat)

  /** Retention is best effort: its failure is reported beside the published checkpoint. */
  datatype Published = Published(checkpoint: Checkpoint, pruned: seq<nat>, pruneFailed: bool)

  predicate Ascending(s: seq<nat>) {
    forall i, j :: 0 <= i < j < |s| ==> s[i] < s[j]
  }

  function Elements(s: seq<nat>): set<nat> { set x | x in s }

  lemma {:induction false} AscendingSize(s: seq<nat>)
    requires Ascending(s)
    ensures |Elements(s)| == |s|
  {
    if s != [] {
      var last := |s| - 1;
      AscendingSize(s[..last]);
      assert s == s[..last] + [s[last]];
      assert Elements(s) == Elements(s[..last]) + {s[last]};
    }
  }

  lemma AppendAscending(s: seq<nat>, x: nat)
    requires Ascending(s) && forall k :: k in s ==> k < x
    ensures Ascending(s + [x]) && Elements(s + [x]) == Elements(s) + {x}
  {
    assert forall i :: 0 <= i < |s| ==> s[i] in s;
  }

  function VisibleNames(files: Files): set<nat> { set n | n in files && Visible(n) }

  ghost predicate IsLeast(m: nat, s: set<nat>) { m in s && forall x :: x in s ==> m <= x }

  lemma {:induction false} LeastExists(s: set<nat>)
    requires s != {}
    ensures exists m :: IsLeast(m, s)
  {
    var y :| y in s;
    var rest := s - {y};
    assert s == rest + {y};
    if rest == {} {
      assert IsLeast(y, s);
    } else {
      LeastExists(rest);
      var m :| IsLeast(m, rest);
      assert IsLeast(if y < m then y else m, s);
    }
  }

  /** Files left once the aged zero-byte reservations are gone. */
  ghost function WithoutCrashed(files: Files, now: int): Files {
    map n | n in files && !CrashedReservation(files, n, now) :: files[n]
  }

  lemma ScanHoldsDocument(files: Files)
    ensures Scan(files).Some? ==> Scan(files).value.content.Document?
  {
  }

  /** The document the publisher would write next, after a successful load. */
  ghost function NextAfter(latest: Option<Loaded>, id: Id): Checkpoint
    requires latest.Some? ==> latest.value.content.Document?
  {
    match latest
    case None => Checkpoint(id, 1, None)
    case Some(l) => Checkpoint(id, l.content.checkpoint.seqNo + 1, Some(l.content.checkpoint.id))
  }

  function IndexOf(c: Checkpoint): Index {
    Parsed(Some(IndexEntry(c.seqNo, c.id, Sha256(Document(c)))))
  }

  /** Cleaning reservations touches no valid file, so readers cannot tell. */
  lemma CleaningKeepsLoad(files: Files, now: int, index: Index)
    requires Untampered(files, index)
    ensures Untampered(WithoutCrashed(files, now), index)
    ensures Scan(WithoutCrashed(files, now)) == Scan(files)
    ensures Load(WithoutCrashed(files, now), index) == Ok(Scan(files))
  {
    var cleaned := WithoutCrashed(files, now);
    forall n
      ensures n in ValidSeqs(cleaned) <==> n in ValidSeqs(files)
    {
      assert n in ValidSeqs(cleaned) <==> n in cleaned && IsValid(cleaned, n);
    }
    assert ValidSeqs(cleaned) == ValidSeqs(files);
    LoadIsScan(files, index);
    LoadIsScan(cleaned, index);
  }

  lemma DeadRemovalKeepsLoad(files: Files, n: nat, index: Index)
    requires Untampered(files, index) && !IsValid(files, n)
    ensures Untampered(files - {n}, index) && Load(files - {n}, index) == Load(files, index)
  {
    forall k
      ensures k in ValidSeqs(files - {n}) <==> k in ValidSeqs(files)
    {
      assert k in ValidSeqs(files - {n}) <==> k in files - {n} && IsValid(files - {n}, k);
    }
    assert ValidSeqs(files - {n}) == ValidSeqs(files);
    LoadIsScan(files, index);
    LoadIsScan(files - {n}, index);
  }

  lemma CollisionKeepsLoad(files: Files, n: nat, now: int, index: Index)
    requires Untampered(files, index)
    ensures var after := AfterCollision(files, n, now); Untampered(after, index) && Load(after, index) == Load(files, index)
  {
    hide Untampered, Load, IsValid, CollisionSeq;
    if !IsValid(files, CollisionSeq(n)) { DeadRemovalKeepsLoad(files, CollisionSeq(n), index); }
  }

  lemma CollisionLeaves(files: Files, n: nat, now: int)
    ensures AfterCollision(files, n, now) ==
            if DeadCollision(files, CollisionSeq(n), now) then files - {CollisionSeq(n)} else files
  {
  }

  /** Retention that could not unlink everything it chose: some of the deletable files are gone. */
  ghost predicate PartlyPruned(before: Files, after: Files, cited: set<Id>) {
    ValidSeqs(before) != {} && exists deleted :: deleted <= Deletable(before, cited) && after == before - deleted
  }

  /** What lost attempts at the name of `n` leave of the cleaned directory. */
  ghost predicate Attempted(attempt: nat, n: nat, cleaned: Files, files: Files, now: int) {
    if attempt == 0 then files == cleaned
    else n in cleaned && files == AfterCollision(cleaned, n, now) && (attempt > 1 ==> n in files)
  }

  lemma NothingAttempted(n: nat, cleaned: Files, now: int)
    ensures Attempted(0, n, cleaned, cleaned, now)
  {
  }

  lemma AttemptLost(attempt: nat, n: nat, cleaned: Files, files: Files, now: int)
    requires Attempted(attempt, n, cleaned, files, now) && n in files
    ensures Attempted(attempt + 1, n, cleaned, AfterCollision(files, n, now), now)
  {
  }

  lemma AttemptWon(attempt: nat, n: nat, cleaned: Files, files: Files, file: File, now: int)
    requires Attempted(attempt, n, cleaned, files, now) && n !in files
    ensures n !in AfterCollision(cleaned, n, now) && files[n := file] == cleaned[n := file]
  {
  }

  lemma AttemptsOver(attempt: nat, n: nat, cleaned: Files, files: Files, now: int)
    requires Attempted(attempt, n, cleaned, files, now) && attempt > 1
    ensures n in files && files == AfterCollision(cleaned, n, now)
  {
  }

  ghost predicate Before(names: seq<nat>, rest: set<nat>) { forall n, m :: n in names && m in rest ==> n < m }

  lemma SmallestMoves(names: seq<nat>, rest: set<nat>, m: nat)
    requires Ascending(names) && Before(names, rest) && m in rest && forall x :: x in rest ==> m <= x
    ensures Ascending(names + [m]) && Before(names + [m], rest - {m})
    ensures Elements(names + [m]) + (rest - {m}) == Elements(names) + rest
  {
    AppendAscending(names, m);
    assert forall x :: x in names + [m] <==> x in names || x == m;
  }

  method SortedNames(all: set<nat>) returns (names: seq<nat>)
    ensures Ascending(names) && Elements(names) == all
  {
    hide Before, Ascending, Elements;
    names := [];
    var remaining := all;
    NothingSorted(all);
    while remaining != {}
      invariant Ascending(names) && Before(names, remaining)
      invariant Elements(names) + remaining == all
      decreases remaining
    {
      LeastExists(remaining);
      var m :| m in remaining && forall x :: x in remaining ==> m <= x;
      SmallestMoves(names, remaining, m);
      names := names + [m];
      remaining := remaining - {m};
    }
  }

  lemma NothingSorted(all: set<nat>)
    ensures Ascending([]) && Before([], all) && Elements([]) == {}
  {
  }

  class CheckpointDirectory {
    var files: Files
    var index: Index

    constructor (files: Files, index: Index)
      ensures this.files == files && this.index == index
    {
      this.files, this.index := files, index;
    }

    /** Checkpoint names only, in name order, which for six digits is sequence order. */
    method ListPublishedFiles() returns (names: seq<nat>)
      ensures Ascending(names) && Elements(names) == VisibleNames(files)
      ensures forall n :: n in names <==> n in files && Visible(n)
    {
      names := SortedNames(VisibleNames(files));
      assert forall n :: n in names <==> n in Elements(names);
    }

    method ScanLatest() returns (best: Option<Loaded>)
      ensures best == Scan(files)
    {
      var names := ListPublishedFiles();
      best := None;
      for i := 0 to |names|
        invariant best.None? ==> forall n :: n in names[..i] ==> !IsValid(files, n)
        invariant best.Some? ==> IsValid(files, best.value.seqNo) && best.value == EntryOf(files, best.value.seqNo)
        invariant best.Some? ==> forall n :: n in names[..i] && IsValid(files, n) ==> n <= best.value.seqNo
      {
        var n := names[i];
        var content := files[n].content;
        if content.Document? && content.checkpoint.seqNo == n && n >= 1 {
          if best.None? || n > best.value.seqNo {
            best := Some(Loaded(n, content.checkpoint.id, content));
          }
        }
        assert names[..i + 1] == names[..i] + [n];
      }
      assert names[..|names|] == names;
      assert forall n :: n in ValidSeqs(files) ==> n in names && IsValid(files, n);
      if best.Some? {
        assert best.value.seqNo in ValidSeqs(files);
        assert MaxOf(ValidSeqs(files)) == best.value.seqNo;
      } else {
        assert ValidSeqs(files) == {};
      }
    }

    method LoadLatestCheckpoint() returns (r: Result<Option<Loaded>, LoadError>)
      ensures r == Load(files, index)
    {
      var indexed: Option<Loaded> := None;
      var entry := ReadIndex(index);
      if entry.Some? {
        var e := entry.value;
        if e.seqNo !in files {
          var recovered := ScanLatest();
          if recovered.None? {
            return Err(IndexedFileMissing(e.seqNo));
          }
        } else {
          var content := files[e.seqNo].content;
          if Sha256(content) != e.digest {
            return Err(HashMismatch(e.seqNo));
          }
          indexed := Some(Loaded(e.seqNo, e.id, content));
        }
      }
      var scanned := ScanLatest();
      if indexed.Some? && scanned.Some? {
        return Ok(if scanned.value.seqNo > indexed.value.seqNo then scanned else indexed);
      }
      return Ok(if indexed.Some? then indexed else scanned);
    }

    method RemoveCrashedReservationArtifacts(now: int) returns (removed: seq<nat>)
      modifies this`files
      ensures files == WithoutCrashed(old(files), now)
      ensures forall n :: n in removed <==> CrashedReservation(old(files), n, now)
    {
      var names := ListPublishedFiles();
      removed := [];
      for i := 0 to |names|
        invariant forall n :: n in removed <==> n in names[..i] && CrashedReservation(old(files), n, now)
        invariant files == old(files) - Elements(removed)
      {
        var n := names[i];
        assert names[..i + 1] == names[..i] + [n];
        assert n !in names[..i] by { assert forall k :: 0 <= k < i ==> names[k] < names[i]; }
        if files[n].content.Empty? && Aged(files[n], now) {
          files := files - {n};
          removed := removed + [n];
        }
      }
      assert names[..|names|] == names;
      assert files == WithoutCrashed(old(files), now);
    }

    /** A lost race stays for the retry to read; an aged file that does not validate goes.
        `n` is the sequence the lost create reported. */
    method HandleSequenceCollision(n: nat, now: int)
      modifies this`files
      ensures files == if DeadCollision(old(files), n, now) then old(files) - {n} else old(files)
    {
      if n !in files || !Aged(files[n], now) {
        return;
      }
      var content := files[n].content;
      if !(content.Document? && content.checkpoint.seqNo == n && n >= 1 && Visible(n)) {
        files := files - {n};
      }
    }

    /** The names that hold valid checkpoints, in order. */
    method ListValid() returns (published: seq<nat>)
      ensures Ascending(published) && Elements(published) == ValidSeqs(files)
    {
      var names := ListPublishedFiles();
      published := [];
      for i := 0 to |names|
        invariant Ascending(published)
        invariant forall n :: n in published <==> n in names[..i] && IsValid(files, n)
      {
        var n := names[i];
        assert names[..i + 1] == names[..i] + [n];
        var content := files[n].content;
        if content.Document? && content.checkpoint.seqNo == n && n >= 1 {
          EarlierAreSmaller(names, i, published);
          AppendAscending(published, n);
          published := published + [n];
        }
      }
      assert names[..|names|] == names;
    }

    /** Those of them retention may delete: not the latest, and not cited. */
    method ListDeletable(published: seq<nat>, cited: set<Id>) returns (deletable: seq<nat>)
      requires ValidSeqs(files) != {} && Ascending(published) && Elements(published) == ValidSeqs(files)
      ensures Ascending(deletable) && Elements(deletable) == Deletable(files, cited)
    {
      assert published != [];
      assert forall n :: n in published <==> n in Elements(published);
      var latest := published[|published| - 1];
      LastIsLargest(published);
      var latestId := files[latest].content.checkpoint.id;
      deletable := [];
      for i := 0 to |published|
        invariant Ascending(deletable)
        invariant forall n :: n in published ==> IsValid(files, n)
        invariant forall n :: n in deletable <==> n in published[..i] && IdAt(files, n) != latestId && IdAt(files, n) !in cited
      {
        var n := published[i];
        assert n in published;
        assert published[..i + 1] == published[..i] + [n];
        var id := files[n].content.checkpoint.id;
        if id != latestId && id !in cited {
          EarlierAreSmaller(published, i, deletable);
          AppendAscending(deletable, n);
          deletable := deletable + [n];
        }
      }
      assert published[..|published|] == published;
    }

    /** Unlinks one after the other; the first that cannot be unlinked stops the pass. */
    method UnlinkEach(targets: seq<nat>, stuck: set<nat>) returns (deleted: seq<nat>, failed: Option<nat>)
      modifies this`files
      ensures deleted <= targets && files == old(files) - Elements(deleted)
      ensures failed.None? ==> deleted == targets
      ensures failed.Some? ==> failed.value in stuck
    {
      deleted := [];
      for i := 0 to |targets|
        invariant deleted == targets[..i] && files == old(files) - Elements(deleted)
      {
        var n := targets[i];
        assert targets[..i + 1] == targets[..i] + [n];
        if n in stuck {
          return deleted, Some(n);
        }
        files := files - {n};
        deleted := deleted + [n];
      }
      failed := None;
    }

    /** Deletes the oldest unprotected checkpoints beyond the cap. `stuck` names the files
        whose unlink fails; a failure stops the pass and leaves readers unaffected. */
    method PruneCheckpoints(cap: int, cited: set<Id>, stuck: set<nat>) returns (r: Result<seq<nat>, PruneError>)
      modifies this`files
      ensures cap < 1 <==> r == Err(CapTooSmall)
      ensures r.Ok? ==> Ascending(r.value) && Pruned(old(files), files, Elements(r.value), cap, cited)
      ensures r.Err? && cap < 1 ==> files == old(files)
      ensures r.Err? && cap >= 1 ==> r.error.seqNo in stuck && PartlyPruned(old(files), files, cited)
      ensures Scan(files) == Scan(old(files))
    {
      hide Scan, ValidSeqs, Deletable, IsSmallest, Ascending;
      if cap < 1 {
        return Err(CapTooSmall);
      }
      var published := ListValid();
      AscendingSize(published);
      if |published| <= cap {
        NothingToPrune(files, published, cap, cited);
        return Ok([]);
      }
      assert ValidSeqs(files) != {} by { assert published[0] in Elements(published); }
      var deletable := ListDeletable(published, cited);
      var excess := |published| - cap;
      var count := if |deletable| < excess then |deletable| else excess;
      DeletesSmallest(deletable, count, excess);
      FrontElements(deletable, count);
      var deleted, failed := UnlinkEach(deletable[..count], stuck);
      FrontElements(deletable[..count], |deleted|);
      assert deleted == deletable[..count][..|deleted|];
      PartialPruneKeepsScan(old(files), Elements(deleted), cited);
      if failed.Some? {
        return Err(UnlinkFailed(failed.value));
      }
      return Ok(deleted);
    }

    /** One publish call with nobody interfering. It succeeds exactly when the next name is
        free once aged reservations are gone, or holds an aged file that does not validate;
        a name of seven digits is never freed, because its collision reports sequence 0. Files
        in `stuck` cannot be unlinked: retention then stops, and the publication stands. */
    method PublishCheckpoint(id: Id, now: nat, cap: int, cited: set<Id>, stuck: set<nat>)
      returns (r: Result<Published, PublishError>)
      modifies this
      ensures old(Untampered(files, index)) ==>
                var next := NextAfter(Scan(old(files)), id);
                var cleaned := WithoutCrashed(old(files), now);
                && (r.Ok? <==> next.seqNo !in AfterCollision(cleaned, next.seqNo, now))
                && (r.Err? ==> && r.error == SequenceTaken(next.seqNo) && index == old(index)
                               && files == AfterCollision(cleaned, next.seqNo, now))
                && (r.Ok? ==>
                      var published := cleaned[next.seqNo := File(Document(next), now)];
                      && r.value.checkpoint == next && index == IndexOf(next)
                      && (if r.value.pruneFailed then r.value.pruned == [] && (cap < 1 || stuck != {}) else cap >= 1)
                      && (cap < 1 ==> files == published)
                      && (!r.value.pruneFailed ==> Pruned(published, files, Elements(r.value.pruned), cap, cited))
                      && (r.value.pruneFailed && cap >= 1 ==> PartlyPruned(published, files, cited))
                      && Scan(files) == Scan(published))
    {
      hide Load, Scan, Untampered, Pruned, WithoutCrashed, CrashedReservation, Elements, ValidSeqs, IndexOf, ReadIndex;
      hide Attempted, AfterCollision, DeadCollision, IsValid, CollisionSeq, PartlyPruned;
      ScanHoldsDocument(files);
      ghost var honest := Untampered(files, index);
      ghost var latest, originIndex := Scan(files), index;
      if honest { CleaningKeepsLoad(files, now, index); }
      var _ := RemoveCrashedReservationArtifacts(now);
      ghost var cleaned := files;
      r := Err(UnreadableLatest);
      var attempt := 0;
      NothingAttempted(NextAfter(latest, id).seqNo, cleaned, now);
      while attempt < 3
        invariant attempt <= 3
        invariant index == originIndex
        invariant honest ==> Untampered(files, index) && Load(files, index) == Ok(latest)
        invariant honest ==> Attempted(attempt, NextAfter(latest, id).seqNo, cleaned, files, now)
        invariant honest && attempt > 0 ==> r == Err(SequenceTaken(NextAfter(latest, id).seqNo))
      {
        if honest { LoadIsScan(files, index); }
        var loaded := LoadLatestCheckpoint();
        if loaded.Err? {
          return Err(LoadFailed(loaded.error));
        }
        if loaded.value.Some? && !loaded.value.value.content.Document? {
          return Err(UnreadableLatest);
        }
        var next := match loaded.value
          case None => Checkpoint(id, 1, None)
          case Some(l) => Checkpoint(id, l.content.checkpoint.seqNo + 1, Some(l.content.checkpoint.id));
        if next.seqNo in files {
          if honest { CollisionKeepsLoad(files, next.seqNo, now, index); }
          if honest { AttemptLost(attempt, next.seqNo, cleaned, files, now); }
          CollisionLeaves(files, next.seqNo, now);
          HandleSequenceCollision(CollisionSeq(next.seqNo), now);
          r := Err(SequenceTaken(next.seqNo));
          attempt := attempt + 1;
          continue;
        }
        if honest { AttemptWon(attempt, next.seqNo, cleaned, files, File(Document(next), now), now); }
        files := files[next.seqNo := File(Document(next), now)];
        index := IndexOf(next);
        var pruned := PruneCheckpoints(cap, cited, stuck);
        return Ok(Published(next, if pruned.Ok? then pruned.value else [], pruned.Err?));
      }
      if honest { AttemptsOver(attempt, NextAfter(latest, id).seqNo, cleaned, files, now); }
    }
  }

  lemma EarlierAreSmaller(names: seq<nat>, i: nat, earlier: seq<nat>)
    requires Ascending(names) && i < |names| && forall k :: k in earlier ==> k in names[..i]
    ensures forall k :: k in earlier ==> k < names[i]
  {
  }

  lemma LastIsLargest(published: seq<nat>)
    requires Ascending(published) && published != []
    ensures Elements(published) != {} && published[|published| - 1] == MaxOf(Elements(published))
  {
    assert published[|published| - 1] in Elements(published);
    assert MaxOf(Elements(published)) in Elements(published);
  }

  lemma NothingToPrune(files: Files, published: seq<nat>, cap: nat, cited: set<Id>)
    requires Elements(published) == ValidSeqs(files) && |published| == |ValidSeqs(files)| && |published| <= cap
    ensures Ascending([]) && Pruned(files, files, Elements([]), cap, cited)
  {
    assert files == files - Elements([]);
  }

  lemma FrontElements(s: seq<nat>, n: nat)
    requires n <= |s|
    ensures Elements(s[..n]) <= Elements(s) && (Ascending(s) ==> Ascending(s[..n]))
  {
  }

  lemma DeletesSmallest(deletable: seq<nat>, count: nat, excess: nat)
    requires Ascending(deletable) && count == if |deletable| < excess then |deletable| else excess
    ensures IsSmallest(Elements(deletable[..count]), Elements(deletable), excess)
  {
    AscendingSize(deletable);
    AscendingSize(deletable[..count]);
    assert forall j :: 0 <= j < count ==> deletable[j] in Elements(deletable[..count]) by {
      assert forall j :: 0 <= j < count ==> deletable[..count][j] == deletable[j];
    }
    forall x, y | x in Elements(deletable[..count]) && y in Elements(deletable) - Elements(deletable[..count])
      ensures x < y
    {
      var i :| 0 <= i < count && deletable[i] == x;
      var j :| 0 <= j < |deletable| && deletable[j] == y;
      assert j >= count;
    }
  }

  lemma PartialPruneKeepsScan(before: Files, deleted: set<nat>, cited: set<Id>)
    requires ValidSeqs(before) != {} && deleted <= Deletable(before, cited)
    ensures Scan(before - deleted) == Scan(before)
  {
    var after := before - deleted;
    forall n
      ensures n in ValidSeqs(after) <==> n in ValidSeqs(before) - deleted
    {
      assert n in ValidSeqs(after) <==> n in after && IsValid(after, n);
    }
    assert ValidSeqs(after) == ValidSeqs(before) - deleted;
    assert MaxOf(ValidSeqs(before)) in ValidSeqs(after);
  }
}
