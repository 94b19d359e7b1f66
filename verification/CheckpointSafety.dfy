/** What every run of the checkpoint protocol guarantees, and where the chain ends. */
module CheckpointSafety {
  import opened Options
  import opened CheckpointFileNames
  import opened CheckpointFiles
  import opened CheckpointProtocol

  lemma ExtendRun(run: seq<Action>, a: Action)
    requires IsRun(run) && Enabled(After(run), a)
    ensures IsRun(run + [a]) && After(run + [a]) == Apply(After(run), a)
    ensures IsDisciplinedRun(run) && Disciplined(After(run), a) ==> IsDisciplinedRun(run + [a])
  {
    var longer := run + [a];
    assert longer[..|longer| - 1] == run;
  }

  lemma {:induction false} RunKeepsInv(run: seq<Action>)
    requires IsDisciplinedRun(run)
    ensures Inv(After(run))
  {
    if run != [] {
      RunKeepsInv(run[..|run| - 1]);
      StepKeeps(After(run[..|run| - 1]), run[|run| - 1]);
    }
  }

  /** In every interleaving of publishers, crashes and clean-ups, the publications form one
      unbroken chain, and there are never more than a million of them. */
  lemma ChainSafety(run: seq<Action>)
    requires IsDisciplinedRun(run)
    ensures Chain(After(run).history) && |After(run).history| <= MILLION
  {
    RunKeepsInv(run);
  }

  /** A rename lands on the publisher's own zero-byte reservation, at the next sequence. */
  lemma RenameNeverOverwrites(run: seq<Action>, p: Pid)
    requires IsDisciplinedRun(run)
    requires Enabled(After(run), Rename(p)) && Disciplined(After(run), Rename(p))
    ensures var s := After(run);
            var hold := PhaseOf(s, p);
            && hold.next.seqNo == |s.history| + 1
            && hold.next.seqNo in s.files && s.files[hold.next.seqNo] == File(Empty, hold.since)
  {
    RunKeepsInv(run);
    RenameKeeps(After(run), p);
  }

  lemma StepKeepsPublished(s: State, a: Action, n: nat)
    requires Inv(s) && Enabled(s, a) && Disciplined(s, a) && n in s.files && s.files[n].content.Document?
    ensures n in Apply(s, a).files ==> Apply(s, a).files[n] == s.files[n]
    ensures n !in Apply(s, a).files ==> a.Unlink? && a.n == n && n < |s.history|
  {
    hide Chain, IndexMatches, DistinctIds, OneHolder, Previous, UnusedId, FilesMatch, Target;
    match a {
      case Rename(p) => RenameKeeps(s, p);
      case Unlink(p, k) => assert PhaseMatches(s.phases[p], s.files, s.now, s.history);
      case CleanReservation(k) => CleanKeeps(s, k);
      case CleanCollision(k) => CleanKeeps(s, CollisionSeq(k));
      case _ =>
    }
  }

  /** Only retention removes a published checkpoint; nothing ever changes one, and the
      latest one stays. */
  lemma PublishedStays(run: seq<Action>, a: Action, n: nat)
    requires IsDisciplinedRun(run)
    requires Enabled(After(run), a) && Disciplined(After(run), a)
    requires n in After(run).files && After(run).files[n].content.Document?
    ensures n in Apply(After(run), a).files ==> Apply(After(run), a).files[n] == After(run).files[n]
    ensures n !in Apply(After(run), a).files ==> a.Unlink? && a.n == n && n < |After(run).history|
  {
    hide Apply, Enabled, Disciplined, Inv, After;
    RunKeepsInv(run);
    StepKeepsPublished(After(run), a, n);
  }

  /** However stale, lost or garbled the index is, and wherever a publisher crashed, loading
      never reports tampering and returns what a scan finds. That is the latest publication,
      except for the millionth, which no reader sees. */
  lemma LoaderFindsLatestPublication(run: seq<Action>)
    requires IsDisciplinedRun(run)
    ensures var s := After(run);
            && Load(s.files, s.index) == Ok(Scan(s.files))
            && (s.history == [] <==> Scan(s.files) == None)
            && (s.history != [] ==>
                  (Scan(s.files) == Some(Nth(s.history, |s.history|)) <==> |s.history| < MILLION))
  {
    RunKeepsInv(run);
    LoadFindsLatest(After(run).files, After(run).index, After(run).history);
  }

  // ----- the seven-digit name

  /** The name of the millionth sequence is taken, and nobody can still rename over it. */
  ghost predicate Full(s: State) {
    MILLION in s.files && forall q :: q in s.phases ==> !LiveHold(s.phases[q], s.now)
  }

  lemma MillionIsFull(s: State)
    requires Inv(s) && |s.history| == MILLION
    ensures Full(s)
  {
    forall q | q in s.phases
      ensures !LiveHold(s.phases[q], s.now)
    {
      assert PhaseMatches(s.phases[q], s.files, s.now, s.history);
    }
  }

  lemma ReserveMisses(s: State, p: Pid)
    requires Inv(s) && Full(s) && p in s.phases && s.phases[p].Targeting?
    ensures s.phases[p].next.seqNo in s.files
  {
    hide Chain, IndexMatches, DistinctIds, OneHolder, Previous, UnusedId;
    assert PhaseMatches(s.phases[p], s.files, s.now, s.history);
  }

  lemma MillionIsNeverCleaned(s: State)
    ensures !CrashedReservation(s.files, MILLION, s.now)
    ensures forall n :: CollisionSeq(n) != MILLION
  {
  }

  lemma FullStays(s: State, a: Action)
    requires Inv(s) && Full(s) && Enabled(s, a) && Disciplined(s, a)
    ensures Full(Apply(s, a)) && Apply(s, a).history == s.history
  {
    hide Chain, IndexMatches, FilesMatch, DistinctIds, OneHolder, IsValid, Previous, UnusedId, TargetMatches, HoldMatches;
    hide Target, Plan, FreshId, Linked, ValidSeqs;
    match a {
      case Reserve(p) => ReserveMisses(s, p);
      case Unlink(p, n) => assert PhaseMatches(s.phases[p], s.files, s.now, s.history);
      case CleanReservation(n) => MillionIsNeverCleaned(s);
      case CleanCollision(n) => MillionIsNeverCleaned(s);
      case _ =>
    }
  }

  lemma LastStep(run: seq<Action>, front: seq<Action>, a: Action)
    requires run == front + [a] && IsDisciplinedRun(run)
    ensures IsRun(front) && IsDisciplinedRun(front) && Enabled(After(front), a) && Disciplined(After(front), a)
    ensures After(run) == Apply(After(front), a)
  {
    assert run[..|run| - 1] == front;
  }

  /** Once that name is taken for good the store is frozen: no reader sees it, no clean-up
      clears it, and every later publish loses the exclusive create. */
  lemma {:induction false} FullIsTheEnd(run: seq<Action>, more: seq<Action>)
    requires IsDisciplinedRun(run + more) && IsDisciplinedRun(run) && Full(After(run))
    ensures Full(After(run + more)) && After(run + more).history == After(run).history
  {
    hide Full, Apply, Enabled, Disciplined, Inv, IsRun, IsDisciplinedRun, After;
    if more == [] {
      assert run + more == run;
    } else {
      var front, last := more[..|more| - 1], more[|more| - 1];
      assert run + more == run + front + [last];
      LastStep(run + more, run + front, last);
      FullIsTheEnd(run, front);
      RunKeepsInv(run + front);
      FullStays(After(run + front), last);
    }
  }

  /** A million publications end the chain. */
  lemma AfterAMillionNothingIsPublished(run: seq<Action>, more: seq<Action>)
    requires IsDisciplinedRun(run + more)
    requires IsDisciplinedRun(run) && |After(run).history| == MILLION
    ensures After(run + more).history == After(run).history
  {
    RunKeepsInv(run);
    MillionIsFull(After(run));
    FullIsTheEnd(run, more);
  }

  // ----- runs that exist

  /** Everybody idle after `n` publications, all still on disk, ids numbered as published. */
  ghost predicate Quiet(s: State, n: nat) { Inv(s) && Calm(s, n) }

  ghost predicate Calm(s: State, n: nat) {
    && |s.history| == n && s.now == 0
    && (forall p :: p in s.phases ==> s.phases[p].Idle?)
    && (forall k :: k in s.files <==> 1 <= k <= n)
    && (forall i :: 0 <= i < n ==> s.history[i].id == i)
  }

  /** Some run ends here; a disciplined one, if so asked. */
  ghost predicate Reached(s: State, disciplined: bool) {
    exists run :: IsRun(run) && After(run) == s && (disciplined ==> IsDisciplinedRun(run))
  }

  lemma StartReached()
    ensures Reached(INIT, true)
  {
    assert IsDisciplinedRun([]) && After([]) == INIT;
  }

  lemma Reach(s: State, a: Action, disciplined: bool)
    requires Reached(s, disciplined) && Enabled(s, a) && (disciplined ==> Disciplined(s, a))
    ensures Reached(Apply(s, a), disciplined)
  {
    var run :| IsRun(run) && After(run) == s && (disciplined ==> IsDisciplinedRun(run));
    ExtendRun(run, a);
    assert IsRun(run + [a]);
  }

  /** The state after a publisher that nobody interferes with has written its index. */
  ghost function Alone(s: State, p: Pid, next: Checkpoint): State {
    State(s.files[next.seqNo := File(Document(next), s.now)],
          Parsed(Some(IndexEntry(next.seqNo, next.id, Sha256(Document(next))))),
          s.now, s.phases[p := Indexed(next)], s.history + [next])
  }

  /** The second half of it, with the name just reserved. */
  lemma RenameAlone(s: State, p: Pid, next: Checkpoint, disciplined: bool)
    requires p in s.phases && s.phases[p] == Targeting(next) && next.seqNo !in s.files
    requires Reached(Reserved(s, p, next), disciplined)
    ensures Reached(Alone(s, p, next), disciplined)
  {
    hide Reached, Target, FreshId, ValidSeqs, Plan, IsPlan;
    var s2 := Reserved(s, p, next);
    Reach(s2, Rename(p), disciplined);
    var s3 := Published(s2, p, next, s.now);
    Reach(s3, WriteIndex(p), disciplined);
    var s4 := WithIndex(s3, p, next);
    assert s4.files == Alone(s, p, next).files && s4.phases == Alone(s, p, next).phases;
  }

  lemma PublishAlone(s: State, p: Pid, next: Checkpoint, disciplined: bool)
    requires Reached(s, disciplined) && PhaseOf(s, p).Idle? && (disciplined ==> FreshId(s, next.id))
    requires Target(s.files, s.index, next.id) == Targeting(next) && next.seqNo !in s.files
    ensures Reached(Alone(s, p, next), disciplined)
  {
    hide Reached, Target, FreshId, ValidSeqs, Plan, IsPlan;
    Reach(s, Start(p, next.id), disciplined);
    var s1 := Move(s, p, Targeting(next));
    Reach(s1, Reserve(p), disciplined);
    RenameAlone(s1, p, next, disciplined);
    var t := Alone(s1, p, next);
    assert t.phases == Alone(s, p, next).phases;
  }

  ghost function NextQuiet(s: State, n: nat): State
    requires |s.history| == n
  {
    Move(Alone(s, 0, Checkpoint(n, n + 1, Previous(s.history, n + 1))), 0, Idle)
  }

  lemma QuietTarget(s: State, n: nat)
    requires Quiet(s, n) && Visible(n)
    ensures |s.history| == n
    ensures Target(s.files, s.index, n) == Targeting(Checkpoint(n, n + 1, Previous(s.history, n + 1)))
    ensures PhaseOf(s, 0).Idle? && FreshId(s, n) && n + 1 !in s.files
  {
    LoadFindsLatest(s.files, s.index, s.history);
  }

  lemma QuietStays(s: State, n: nat)
    requires Quiet(s, n) && Visible(n)
    ensures Quiet(NextQuiet(s, n), n + 1)
  {
    hide Calm;
    CalmFacts(s, n);
    CalmStays(s, n);
    AloneKeeps(s, 0, Checkpoint(n, n + 1, Previous(s.history, n + 1)));
    MoveKeeps(Alone(s, 0, Checkpoint(n, n + 1, Previous(s.history, n + 1))), 0, Idle);
  }

  lemma CalmFacts(s: State, n: nat)
    requires Calm(s, n)
    ensures |s.history| == n && n + 1 !in s.files && UnusedId(n, s.history)
    ensures forall q :: q in s.phases ==> s.phases[q].Idle?
  {
  }

  lemma CalmStays(s: State, n: nat)
    requires Calm(s, n)
    ensures Calm(NextQuiet(s, n), n + 1)
  {
  }

  lemma QuietGrows(s: State, n: nat)
    requires Quiet(s, n) && Visible(n) && Reached(s, true)
    ensures Quiet(NextQuiet(s, n), n + 1) && Reached(NextQuiet(s, n), true)
  {
    hide Reached, Quiet;
    QuietTarget(s, n);
    QuietStays(s, n);
    PublishAlone(s, 0, Checkpoint(n, n + 1, Previous(s.history, n + 1)), true);
    Reach(Alone(s, 0, Checkpoint(n, n + 1, Previous(s.history, n + 1))), Finish(0), true);
  }

  lemma AloneKeeps(s: State, p: Pid, next: Checkpoint)
    requires Inv(s) && next.seqNo == |s.history| + 1 <= MILLION && next.seqNo !in s.files
    requires next.supersedes == Previous(s.history, next.seqNo) && UnusedId(next.id, s.history)
    requires forall q :: q in s.phases ==> s.phases[q].Idle?
    ensures Inv(Alone(s, p, next))
  {
    hide Chain, FilesMatch, IndexMatches, UnusedId;
    var t := Alone(s, p, next);
    AloneStore(s.files, s.history, next, s.now);
    forall q | q in t.phases
      ensures PhaseMatches(t.phases[q], t.files, t.now, t.history)
    {
      assert t.history[|s.history|] == next;
    }
  }

  lemma AloneStore(files: Files, h: seq<Checkpoint>, next: Checkpoint, now: nat)
    requires Chain(h) && FilesMatch(files, h) && next.seqNo == |h| + 1 <= MILLION && next.seqNo !in files
    requires next.supersedes == Previous(h, next.seqNo) && UnusedId(next.id, h)
    ensures Chain(h + [next]) && FilesMatch(files[next.seqNo := File(Document(next), now)], h + [next])
    ensures IndexMatches(Parsed(Some(IndexEntry(next.seqNo, next.id, Sha256(Document(next))))), h + [next])
  {
    hide Chain;
    ChainGrows(h, next);
    FilesGrow(files, h, next, now);
  }

  lemma FilesGrow(files: Files, h: seq<Checkpoint>, next: Checkpoint, now: nat)
    requires FilesMatch(files, h) && next.seqNo == |h| + 1 <= MILLION
    ensures FilesMatch(files[next.seqNo := File(Document(next), now)], h + [next])
  {
  }

  lemma {:induction false} ReachesPublications(n: nat) returns (s: State)
    requires n <= MILLION
    ensures Quiet(s, n) && Reached(s, true)
  {
    hide Reached;
    if n == 0 {
      StartReached();
      s := INIT;
    } else {
      var before := ReachesPublications(n - 1);
      QuietGrows(before, n - 1);
      s := NextQuiet(before, n - 1);
    }
  }

  /** A crash between reservation and rename is cleaned up at every sequence but this one:
      it freezes the store one publication earlier. */
  lemma CrashAtTheMillionthFreezes() returns (s: State)
    ensures Reached(s, true) && Full(s) && |s.history| == MILLION - 1
    ensures s.files[MILLION].content == Empty && forall q :: q in s.phases ==> s.phases[q].Idle?
  {
    hide Reached;
    var quiet := ReachesPublications(LAST_VISIBLE);
    QuietTarget(quiet, LAST_VISIBLE);
    var next := Checkpoint(LAST_VISIBLE, MILLION, Previous(quiet.history, MILLION));
    Reach(quiet, Start(0, LAST_VISIBLE), true);
    var s1 := Move(quiet, 0, Targeting(next));
    Reach(s1, Reserve(0), true);
    var s2 := Reserved(s1, 0, next);
    Reach(s2, Crash(0), true);
    s := Move(s2, 0, Idle);
  }

  lemma EmptyTarget(id: Id)
    ensures Target(map[], Missing, id) == Targeting(Checkpoint(id, 1, None))
  {
  }

  /** Publisher 0 has reserved the first name and stalled until the clean-up took it away. */
  lemma StalledPastTheGracePeriod() returns (s: State)
    ensures Reached(s, true) && s.files == map[] && s.index == Missing && s.history == []
    ensures s.now == RESERVATION_GRACE_MS && s.phases == map[0 := Holding(Checkpoint(10, 1, None), 0)]
  {
    hide Reached, Target, Plan, ValidSeqs;
    var first := Checkpoint(10, 1, None);
    EmptyTarget(10);
    StartReached();
    Reach(INIT, Start(0, 10), true);
    var s1 := Move(INIT, 0, Targeting(first));
    Reach(s1, Reserve(0), true);
    var s2 := Reserved(s1, 0, first);
    Reach(s2, Tick(RESERVATION_GRACE_MS), true);
    var s3 := s2.(now := RESERVATION_GRACE_MS);
    Reach(s3, CleanReservation(1), true);
    s := s3.(files := s3.files - {1});
  }

  /** Without the grace-period assumption a stalled publisher overwrites a published
      checkpoint with a second one of the same sequence. */
  lemma GracePeriodIsNeeded() returns (s: State)
    ensures Reached(s, true) && Enabled(s, Rename(0)) && !Disciplined(s, Rename(0))
    ensures 1 in s.files && s.files[1].content == Document(Checkpoint(11, 1, None))
    ensures var t := Apply(s, Rename(0));
            t.files[1].content == Document(Checkpoint(10, 1, None)) && !Chain(t.history)
  {
    hide Reached, Target, Plan, ValidSeqs;
    var first, second := Checkpoint(10, 1, None), Checkpoint(11, 1, None);
    var late := StalledPastTheGracePeriod();
    EmptyTarget(11);
    PublishAlone(late, 1, second, true);
    s := Alone(late, 1, second);
    var h := Apply(s, Rename(0)).history;
    assert h == [second, first];
    assert h[1].seqNo == 1;
  }

  /** Publisher 0 has loaded an empty directory; publisher 1 then publishes 1 and 2 and is
      about to apply a cap of one. */
  lemma TwoBesideAStalledOne() returns (s: State)
    ensures Reached(s, false) && s.now == 0
    ensures s.history == [Checkpoint(11, 1, None), Checkpoint(12, 2, Some(11))]
    ensures s.files == map[1 := File(Document(Checkpoint(11, 1, None)), 0), 2 := File(Document(Checkpoint(12, 2, Some(11))), 0)]
    ensures PhaseOf(s, 0) == Targeting(Checkpoint(10, 1, None)) && PhaseOf(s, 1).Indexed?
  {
    hide Reached, Target, Plan, ValidSeqs;
    var one, two := Checkpoint(11, 1, None), Checkpoint(12, 2, Some(11));
    EmptyTarget(10);
    EmptyTarget(11);
    StartReached();
    Reach(INIT, Start(0, 10), false);
    var s1 := Move(INIT, 0, Targeting(Checkpoint(10, 1, None)));
    PublishAlone(s1, 1, one, false);
    var s2 := Alone(s1, 1, one);
    Reach(s2, Finish(1), false);
    var s3 := Move(s2, 1, Idle);
    SecondTarget(s3.files, s3.index, one);
    PublishAlone(s3, 1, two, false);
    s := Alone(s3, 1, two);
  }

  lemma SecondTarget(files: Files, index: Index, one: Checkpoint)
    requires one == Checkpoint(11, 1, None) && files == map[1 := File(Document(one), 0)]
    requires index == Parsed(Some(IndexEntry(1, 11, Sha256(Document(one)))))
    ensures Target(files, index, 12) == Targeting(Checkpoint(12, 2, Some(11)))
  {
    LoadFindsLatest(files, index, [one]);
  }

  /** Without the assumption on retention, a publisher that loaded before sequence 1 was
      published and pruned publishes sequence 1 again: the history forks. */
  lemma RetentionRaceForks() returns (s: State)
    ensures Reached(s, false)
    ensures s.history == [Checkpoint(11, 1, None), Checkpoint(12, 2, Some(11)), Checkpoint(10, 1, None)]
    ensures !Chain(s.history)
  {
    hide Reached;
    var slow := Checkpoint(10, 1, None);
    var s4 := TwoBesideAStalledOne();
    PlanIsFirst(s4.files);
    Reach(s4, PlanPrune(1, 1, {}), false);
    var s5 := Move(s4, 1, Pruning({1}));
    Reach(s5, Unlink(1, 1), false);
    var s6 := Unlinked(s5, 1, 1, {1});
    Reach(s6, Reserve(0), false);
    var s7 := Reserved(s6, 0, slow);
    Reach(s7, Rename(0), false);
    s := Published(s7, 0, slow, 0);
    assert s.history[2].seqNo == 1;
  }

  lemma PlanIsFirst(files: Files)
    requires files == map[1 := File(Document(Checkpoint(11, 1, None)), 0), 2 := File(Document(Checkpoint(12, 2, Some(11))), 0)]
    ensures Plan(files, 1, {}) == {1}
  {
    assert ValidSeqs(files) == {1, 2};
    assert MaxOf(ValidSeqs(files)) == 2;
    assert Deletable(files, {}) == {1};
    var todo := Plan(files, 1, {});
    assert IsSmallest(todo, {1}, 1);
    SubsetSize(todo, {1});
  }
}
