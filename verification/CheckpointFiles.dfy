/** The directory of one task's checkpoints: what a reader makes of it, and what the
    publisher's clean-up and retention steps do to it. Names are modelled as text in
    CheckpointFileNames; here a file is keyed by the sequence its name was built from. */
module CheckpointFileNames {
  import opened Options
  import opened JsStrings
  import opened Decimal

  const EXTENSION: JsString := [0x2E, 0x6A, 0x73, 0x6F, 0x6E]

  /** The largest sequence whose name still has exactly six digits. */
  const LAST_VISIBLE: nat := 999_999

  const MILLION: nat := LAST_VISIBLE + 1

  predicate Visible(n: nat) { n <= LAST_VISIBLE }

  /** At least six digits, padded with zeros. */
  function Padded(n: nat): (s: JsString)
    ensures AllDigits(s)
  {
    var digits := Digits(n);
    if |digits| < 6 then Zeros(6 - |digits|) + digits else digits
  }

  function CheckpointFileName(n: nat): JsString { Padded(n) + EXTENSION }

  /** Six digits, then the extension; anything else is not a checkpoint file. */
  function SeqFromFileName(file: JsString): Option<nat> {
    if |file| == 11 && AllDigits(file[..6]) && file[6..] == EXTENSION then Some(ValueOf(file[..6])) else None
  }

  lemma PaddedValue(n: nat)
    ensures ValueOf(Padded(n)) == n
  {
    ValueOfDigits(n);
    if |Digits(n)| < 6 { LeadingZerosKeepValue(6 - |Digits(n)|, Digits(n)); }
  }

  lemma MillionIsSevenDigits(n: nat)
    ensures |Padded(n)| == 6 <==> Visible(n)
  {
    DigitsLength(n, 6);
    assert Pow10(3) == 10 * Pow10(2) && Pow10(2) == 10 * Pow10(1) && Pow10(1) == 10 * Pow10(0);
    assert Pow10(6) == 10 * Pow10(5) && Pow10(5) == 10 * Pow10(4) && Pow10(4) == 10 * Pow10(3);
  }

  /** Padding to six digits is undone by the reader's pattern up to 999999 and never
      beyond: from a million on, the published name is not a checkpoint name at all. */
  lemma FileNameRoundTrip(n: nat)
    ensures SeqFromFileName(CheckpointFileName(n)) == if Visible(n) then Some(n) else None
  {
    PaddedValue(n);
    MillionIsSevenDigits(n);
    if Visible(n) {
      assert CheckpointFileName(n)[..6] == Padded(n) && CheckpointFileName(n)[6..] == EXTENSION;
    }
  }

  /** The sequence a lost exclusive create reports: a name the pattern misses counts as 0. */
  function CollisionSeq(n: nat): (k: nat)
    ensures k == if Visible(n) then n else 0
  {
    FileNameRoundTrip(n);
    match SeqFromFileName(CheckpointFileName(n))
    case Some(k) => k
    case None => 0
  }

  /** Two sequences never share a name, visible or not. */
  lemma FileNameInjective(m: nat, n: nat)
    requires CheckpointFileName(m) == CheckpointFileName(n)
    ensures m == n
  {
    PaddedValue(m);
    PaddedValue(n);
    assert CheckpointFileName(m)[..|Padded(m)|] == Padded(m);
    assert CheckpointFileName(n)[..|Padded(n)|] == Padded(n);
  }
}

module CheckpointFiles {
  import opened Options
  import opened CheckpointFileNames

  type Id = nat

  datatype Checkpoint = Checkpoint(id: Id, seqNo: nat, supersedes: Option<Id>)

  /** Zero bytes, a document the strict parser accepts, or any other bytes. */
  datatype Content = Empty | Document(checkpoint: Checkpoint) | Junk(bytes: nat)

  /** A collision-free digest: equal digests mean equal contents. */
  datatype Digest = Sha256(content: Content)

  datatype File = File(content: Content, mtime: nat)

  datatype IndexEntry = IndexEntry(seqNo: nat, id: Id, digest: Digest)

  datatype Index = Missing | Unparseable | Parsed(latest: Option<IndexEntry>)

  type Files = map<nat, File>

  datatype LoadError = HashMismatch(seqNo: nat) | IndexedFileMissing(seqNo: nat)

  datatype Loaded = Loaded(seqNo: nat, id: Id, content: Content)

  const RESERVATION_GRACE_MS: nat := 60_000

  // ----- what a reader makes of the directory

  /** A checkpoint file the scan accepts: its name is visible and agrees with its content. */
  predicate IsValid(files: Files, n: nat) {
    && n in files && Visible(n) && n >= 1
    && files[n].content.Document? && files[n].content.checkpoint.seqNo == n
  }

  function ValidSeqs(files: Files): set<nat> {
    set n | n in files && IsValid(files, n)
  }

  ghost predicate IsLargest(m: nat, s: set<nat>) { m in s && forall x :: x in s ==> x <= m }

  lemma {:induction false} LargestExists(s: set<nat>)
    requires s != {}
    ensures exists m :: IsLargest(m, s)
  {
    var y :| y in s;
    var rest := s - {y};
    assert s == rest + {y};
    if rest == {} {
      assert IsLargest(y, s);
    } else {
      LargestExists(rest);
      var m :| IsLargest(m, rest);
      assert IsLargest(if m < y then y else m, s);
    }
  }

  ghost function MaxOf(s: set<nat>): (m: nat)
    requires s != {}
    ensures m in s && forall x :: x in s ==> x <= m
  {
    LargestExists(s);
    var m :| IsLargest(m, s);
    m
  }

  function EntryOf(files: Files, n: nat): Loaded
    requires IsValid(files, n)
  {
    Loaded(n, files[n].content.checkpoint.id, files[n].content)
  }

  /** The highest-sequence valid file. */
  ghost function Scan(files: Files): Option<Loaded> {
    if ValidSeqs(files) == {} then None else Some(EntryOf(files, MaxOf(ValidSeqs(files))))
  }

  /** The index entry a reader gets: a parsed entry whose name is a checkpoint name. */
  function ReadIndex(index: Index): Option<IndexEntry> {
    if index.Parsed? && index.latest.Some? && 1 <= index.latest.value.seqNo && Visible(index.latest.value.seqNo)
    then index.latest
    else None
  }

  ghost function Load(files: Files, index: Index): Result<Option<Loaded>, LoadError> {
    var scanned := Scan(files);
    match ReadIndex(index)
    case None => Ok(scanned)
    case Some(e) =>
      if e.seqNo !in files then
        if scanned.None? then Err(IndexedFileMissing(e.seqNo)) else Ok(scanned)
      else if Sha256(files[e.seqNo].content) != e.digest then
        Err(HashMismatch(e.seqNo))
      else if scanned.Some? && scanned.value.seqNo > e.seqNo then
        Ok(scanned)
      else
        Ok(Some(Loaded(e.seqNo, e.id, files[e.seqNo].content)))
  }

  /** An index that tells the truth about the file it names, if that file is still there,
      and that never outlives the last valid file. */
  ghost predicate Untampered(files: Files, index: Index) {
    ReadIndex(index).Some? ==>
      var e := ReadIndex(index).value;
      && ValidSeqs(files) != {}
      && (e.seqNo in files ==>
            && IsValid(files, e.seqNo)
            && e.id == files[e.seqNo].content.checkpoint.id
            && e.digest == Sha256(files[e.seqNo].content))
  }

  /** Stale, missing, unparseable or current, an honest index never changes the answer. */
  lemma LoadIsScan(files: Files, index: Index)
    requires Untampered(files, index)
    ensures Load(files, index) == Ok(Scan(files))
  {
    if ReadIndex(index).Some? {
      var e := ReadIndex(index).value;
      if e.seqNo in files {
        assert e.seqNo in ValidSeqs(files);
        assert e.seqNo <= MaxOf(ValidSeqs(files));
      }
    }
  }

  // ----- clean-up and retention

  predicate Aged(f: File, now: int) { now - f.mtime >= RESERVATION_GRACE_MS }

  /** Zero bytes at a checkpoint name, past the grace period. */
  predicate CrashedReservation(files: Files, n: nat, now: int) {
    n in files && Visible(n) && files[n].content.Empty? && Aged(files[n], now)
  }

  /** What a collision at `n` may remove: an aged file that does not validate. */
  predicate DeadCollision(files: Files, n: nat, now: int) {
    n in files && Aged(files[n], now) && !IsValid(files, n)
  }

  /** What is left after the clean-up that follows losing the exclusive create of `n`. */
  function AfterCollision(files: Files, n: nat, now: int): Files {
    if DeadCollision(files, CollisionSeq(n), now) then files - {CollisionSeq(n)} else files
  }

  function IdAt(files: Files, n: nat): Id
    requires IsValid(files, n)
  {
    files[n].content.checkpoint.id
  }

  ghost function Deletable(files: Files, cited: set<Id>): set<nat>
    requires ValidSeqs(files) != {}
  {
    set n | n in ValidSeqs(files) &&
            IdAt(files, n) != IdAt(files, MaxOf(ValidSeqs(files))) && IdAt(files, n) !in cited
  }

  /** `d` is the `k` smallest elements of `s`, or all of them when there are fewer. */
  ghost predicate IsSmallest(d: set<nat>, s: set<nat>, k: nat) {
    && d <= s
    && |d| == (if |s| < k then |s| else k)
    && forall x, y :: x in d && y in s && y !in d ==> x < y
  }

  lemma {:induction false} SmallestUnique(d: set<nat>, e: set<nat>, s: set<nat>, k: nat)
    requires IsSmallest(d, s, k) && IsSmallest(e, s, k)
    ensures d == e
  {
    if d <= e {
      SubsetSize(d, e);
    } else if e <= d {
      SubsetSize(e, d);
    }
  }

  lemma {:induction false} SubsetSize(a: set<nat>, b: set<nat>)
    requires a <= b
    ensures |a| <= |b| && (|a| == |b| ==> a == b)
  {
    assert b == a + (b - a);
  }

  function Excess(total: nat, cap: nat): nat { if total <= cap then 0 else total - cap }

  /** What a directory must look like after retention ran on it with a given cap. */
  ghost predicate Pruned(before: Files, after: Files, deleted: set<nat>, cap: nat, cited: set<Id>) {
    && after == before - deleted
    && (ValidSeqs(before) == {} ==> deleted == {})
    && (ValidSeqs(before) != {} ==>
          IsSmallest(deleted, Deletable(before, cited), Excess(|ValidSeqs(before)|, cap)))
  }

  /** Which files retention leaves is settled by the directory, the cap and the citations. */
  lemma PrunedUnique(before: Files, a: Files, b: Files, fromA: set<nat>, fromB: set<nat>, cap: nat, cited: set<Id>)
    requires Pruned(before, a, fromA, cap, cited) && Pruned(before, b, fromB, cap, cited)
    ensures a == b && fromA == fromB
  {
    if ValidSeqs(before) != {} {
      SmallestUnique(fromA, fromB, Deletable(before, cited), Excess(|ValidSeqs(before)|, cap));
    }
  }

  /** The checkpoints retention may not touch: the latest, and the cited ones. */
  ghost function Protected(files: Files, cited: set<Id>): set<nat>
    requires ValidSeqs(files) != {}
  {
    ValidSeqs(files) - Deletable(files, cited)
  }

  /** Retention never removes the latest or a cited checkpoint, leaves exactly the larger
      of the cap and the protected ones when it deletes, and hides nothing from readers. */
  lemma PruneEffect(before: Files, after: Files, deleted: set<nat>, cap: nat, cited: set<Id>)
    requires Pruned(before, after, deleted, cap, cited) && cap >= 1
    ensures deleted <= ValidSeqs(before) && ValidSeqs(after) == ValidSeqs(before) - deleted
    ensures forall n :: n in deleted ==> IdAt(before, n) !in cited
    ensures Scan(after) == Scan(before)
    ensures |ValidSeqs(before)| <= cap ==> deleted == {}
    ensures |ValidSeqs(before)| > cap ==>
              |ValidSeqs(after)| == var p := |Protected(before, cited)|; if p < cap then cap else p
  {
    var valid := ValidSeqs(before);
    forall n
      ensures n in ValidSeqs(after) <==> n in valid - deleted
    {
      assert n in ValidSeqs(after) <==> n in after && IsValid(after, n);
    }
    assert ValidSeqs(after) == valid - deleted;
    if valid != {} {
      var deletable := Deletable(before, cited);
      assert MaxOf(valid) !in deletable;
      assert MaxOf(valid) in ValidSeqs(after);
      assert MaxOf(ValidSeqs(after)) == MaxOf(valid);
      assert deletable <= valid;
      assert |valid - deleted| == |valid| - |deleted|;
      assert |valid - deletable| == |valid| - |deletable|;
    }
  }

  /** The index may keep naming a file retention removed; loading still succeeds. */
  lemma PruneKeepsLoad(before: Files, after: Files, deleted: set<nat>, cap: nat, cited: set<Id>, index: Index)
    requires Pruned(before, after, deleted, cap, cited) && cap >= 1
    requires Untampered(before, index)
    ensures Load(after, index) == Load(before, index)
  {
    PruneEffect(before, after, deleted, cap, cited);
    if ReadIndex(index).Some? {
      assert MaxOf(ValidSeqs(before)) in ValidSeqs(before);
      assert Scan(after).Some?;
      var e := ReadIndex(index).value;
      if e.seqNo in after { assert after[e.seqNo] == before[e.seqNo]; }
    }
    LoadIsScan(before, index);
    LoadIsScan(after, index);
  }
}
