/** Several publishers on one checkpoint directory, with no lock. Every step is one file
    system effect; a crash or another publisher may come between any two. `Enabled` and
    `Apply` are what the code does. `Disciplined` adds the assumptions safety rests on. */
module CheckpointProtocol {
  import opened Options
  import opened CheckpointFileNames
  import opened CheckpointFiles

  type Pid = nat

  /** Where one publish call stands. */
  datatype Phase =
    | Idle
    | Targeting(next: Checkpoint)              // loaded the latest, built the next document
    | Holding(next: Checkpoint, since: nat)    // reserved the name, not yet renamed over it
    | Renamed(done: Checkpoint)                // published, index not yet written
    | Indexed(done: Checkpoint)
    | Pruning(todo: set<nat>)

  /** `history` records every rename over a checkpoint name, in order. */
  datatype State = State(files: Files, index: Index, now: nat, phases: map<Pid, Phase>,
                         history: seq<Checkpoint>)

  datatype Action =
    | Start(p: Pid, id: Id)
    | Reserve(p: Pid)
    | Rename(p: Pid)
    | WriteIndex(p: Pid)
    | PlanPrune(p: Pid, cap: nat, cited: set<Id>)
    | Unlink(p: Pid, n: nat)
    | Finish(p: Pid)
    | Crash(p: Pid)
    | CleanReservation(n: nat)
    | CleanCollision(n: nat)                   // after losing the exclusive create of `n`
    | Tick(ms: nat)
    | LoseIndex
    | GarbleIndex

  ghost const INIT: State := State(map[], Missing, 0, map[], [])

  ghost function PhaseOf(s: State, p: Pid): Phase {
    if p in s.phases then s.phases[p] else Idle
  }

  ghost function Move(s: State, p: Pid, phase: Phase): State {
    s.(phases := s.phases[p := phase])
  }

  /** What the code allows, step by step. */
  ghost predicate Enabled(s: State, a: Action) {
    match a
    case Start(p, _) => PhaseOf(s, p).Idle?
    case Reserve(p) => PhaseOf(s, p).Targeting?
    case Rename(p) => PhaseOf(s, p).Holding?
    case WriteIndex(p) => PhaseOf(s, p).Renamed?
    case PlanPrune(p, cap, _) => PhaseOf(s, p).Indexed? && cap >= 1
    case Unlink(p, n) => PhaseOf(s, p).Pruning? && n in PhaseOf(s, p).todo
    case Finish(p) => PhaseOf(s, p).Indexed? || PhaseOf(s, p).Pruning?
    case Crash(_) => true
    case CleanReservation(n) => CrashedReservation(s.files, n, s.now)
    case CleanCollision(n) => DeadCollision(s.files, CollisionSeq(n), s.now)
    case Tick(_) => true
    case LoseIndex => true
    case GarbleIndex => true
  }

  /** A publish call after its load: nothing to trust means the call gives up. */
  ghost function Target(files: Files, index: Index, id: Id): (phase: Phase)
    ensures phase.Idle? || phase.Targeting?
  {
    match Load(files, index)
    case Err(_) => Idle
    case Ok(None) => Targeting(Checkpoint(id, 1, None))
    case Ok(Some(l)) =>
      if l.content.Document?
      then Targeting(Checkpoint(id, l.content.checkpoint.seqNo + 1, Some(l.content.checkpoint.id)))
      else Idle
  }

  ghost predicate IsPlan(todo: set<nat>, files: Files, cap: nat, cited: set<Id>) {
    if ValidSeqs(files) == {} then todo == {}
    else IsSmallest(todo, Deletable(files, cited), Excess(|ValidSeqs(files)|, cap))
  }

  lemma {:induction false} SmallestExists(s: set<nat>, k: nat)
    ensures exists d :: IsSmallest(d, s, k)
  {
    if k == 0 {
      assert IsSmallest({}, s, 0);
    } else if |s| < k {
      assert IsSmallest(s, s, k);
    } else {
      var top := MaxOf(s);
      SmallestExists(s - {top}, k - 1);
      if |s| == k {
        assert IsSmallest(s, s, k);
      } else {
        SmallestExists(s - {top}, k);
        var d :| IsSmallest(d, s - {top}, k);
        assert IsSmallest(d, s, k);
      }
    }
  }

  ghost function Plan(files: Files, cap: nat, cited: set<Id>): (todo: set<nat>)
    ensures IsPlan(todo, files, cap, cited)
  {
    if ValidSeqs(files) == {} then {} else
      SmallestExists(Deletable(files, cited), Excess(|ValidSeqs(files)|, cap));
      var todo :| IsSmallest(todo, Deletable(files, cited), Excess(|ValidSeqs(files)|, cap));
      todo
  }

  /** Losing the exclusive create sends the caller back to a fresh load. */
  ghost function Reserved(s: State, p: Pid, next: Checkpoint): State {
    if next.seqNo in s.files then Move(s, p, Idle)
    else Move(s, p, Holding(next, s.now)).(files := s.files[next.seqNo := File(Empty, s.now)])
  }

  /** The renamed file's own time is that of the temporary file, shortly before `since`; no
      step looks at the age of a file that validates. */
  ghost function Published(s: State, p: Pid, next: Checkpoint, since: nat): State {
    Move(s, p, Renamed(next)).(files := s.files[next.seqNo := File(Document(next), since)],
                               history := s.history + [next])
  }

  ghost function WithIndex(s: State, p: Pid, c: Checkpoint): State {
    Move(s, p, Indexed(c)).(index := Parsed(Some(IndexEntry(c.seqNo, c.id, Sha256(Document(c))))))
  }

  ghost function Unlinked(s: State, p: Pid, n: nat, todo: set<nat>): State {
    Move(s, p, Pruning(todo - {n})).(files := s.files - {n})
  }

  ghost function Apply(s: State, a: Action): State
    requires Enabled(s, a)
  {
    match a
    case Start(p, id) => Move(s, p, Target(s.files, s.index, id))
    case Reserve(p) => Reserved(s, p, PhaseOf(s, p).next)
    case Rename(p) => Published(s, p, PhaseOf(s, p).next, PhaseOf(s, p).since)
    case WriteIndex(p) => WithIndex(s, p, PhaseOf(s, p).done)
    case PlanPrune(p, cap, cited) => Move(s, p, Pruning(Plan(s.files, cap, cited)))
    case Unlink(p, n) => Unlinked(s, p, n, PhaseOf(s, p).todo)
    case Finish(p) => Move(s, p, Idle)
    case Crash(p) => Move(s, p, Idle)
    case CleanReservation(n) => s.(files := s.files - {n})
    case CleanCollision(n) => s.(files := s.files - {CollisionSeq(n)})
    case Tick(ms) => s.(now := s.now + ms)
    case LoseIndex => s.(index := Missing)
    case GarbleIndex => s.(index := Unparseable)
  }

  /** The id is one no publisher holds and no publication used. */
  ghost predicate FreshId(s: State, id: Id) {
    && (forall i :: 0 <= i < |s.history| ==> s.history[i].id != id)
    && (forall q :: q in s.phases && s.phases[q].Targeting? ==> s.phases[q].next.id != id)
    && (forall q :: q in s.phases && s.phases[q].Holding? ==> s.phases[q].next.id != id)
  }

  ghost predicate Live(now: nat, since: nat) { now - since < RESERVATION_GRACE_MS }

  /** Ids are fresh; a publisher that renames does so within the grace period of its own
      reservation; retention does not remove the very sequence a publisher is targeting. */
  ghost predicate Disciplined(s: State, a: Action) {
    match a
    case Start(_, id) => FreshId(s, id)
    case Rename(p) => PhaseOf(s, p).Holding? ==> Live(s.now, PhaseOf(s, p).since)
    case Unlink(_, n) => forall q :: q in s.phases && s.phases[q].Targeting? ==> s.phases[q].next.seqNo != n
    case _ => true
  }

  // ----- runs

  ghost predicate IsRun(run: seq<Action>)
    decreases |run|, 0
  {
    run == [] || (IsRun(run[..|run| - 1]) && Enabled(After(run[..|run| - 1]), run[|run| - 1]))
  }

  /** The state a run ends in. */
  ghost function After(run: seq<Action>): State
    requires IsRun(run)
    decreases |run|, 1
  {
    if run == [] then INIT else Apply(After(run[..|run| - 1]), run[|run| - 1])
  }

  ghost predicate IsDisciplinedRun(run: seq<Action>) {
    && IsRun(run)
    && (run == [] || (IsDisciplinedRun(run[..|run| - 1]) && Disciplined(After(run[..|run| - 1]), run[|run| - 1])))
  }

  // ----- the invariant

  /** Sequences 1, 2, 3, ..., each superseding the id of the one before, all ids distinct. */
  ghost predicate Chain(h: seq<Checkpoint>) {
    && (forall i :: 0 <= i < |h| ==> h[i].seqNo == i + 1)
    && (forall i :: 0 <= i < |h| ==> Linked(h, i))
    && (forall i, j :: 0 <= i < j < |h| ==> h[i].id != h[j].id)
  }

  ghost predicate Linked(h: seq<Checkpoint>, i: nat)
    requires i < |h|
  {
    h[i].supersedes == Previous(h, i + 1)
  }

  ghost function Previous(h: seq<Checkpoint>, n: nat): Option<Id>
    requires 1 <= n <= |h| + 1
  {
    if n == 1 then None else Some(h[n - 2].id)
  }

  /** The last publication a reader can see: the millionth has a name of seven digits. */
  function LatestVisible(h: seq<Checkpoint>): nat { if Visible(|h|) then |h| else LAST_VISIBLE }

  /** Names up to the latest hold exactly what was published or were pruned; the one name
      after the latest may hold a reservation; the latest itself is there, and so is the
      latest a reader can see. */
  ghost predicate FilesMatch(files: Files, h: seq<Checkpoint>) {
    && (forall n :: n in files ==> 1 <= n <= |h| + 1)
    && (forall n :: n in files && n <= |h| ==> files[n].content == Document(h[n - 1]))
    && (|h| + 1 in files ==> files[|h| + 1].content == Empty)
    && (|h| > 0 ==> |h| in files && LatestVisible(h) in files)
  }

  ghost predicate IndexMatches(index: Index, h: seq<Checkpoint>) {
    index.Parsed? && index.latest.Some? ==>
      var e := index.latest.value;
      1 <= e.seqNo <= |h| && e.id == h[e.seqNo - 1].id && e.digest == Sha256(Document(h[e.seqNo - 1]))
  }

  ghost predicate UnusedId(id: Id, h: seq<Checkpoint>) {
    forall i :: 0 <= i < |h| ==> h[i].id != id
  }

  ghost predicate TargetMatches(c: Checkpoint, files: Files, h: seq<Checkpoint>) {
    && 1 <= c.seqNo <= |h| + 1 && c.seqNo <= MILLION && c.supersedes == Previous(h, c.seqNo) && UnusedId(c.id, h)
    && (c.seqNo <= |h| ==> c.seqNo in files)
  }

  ghost predicate HoldMatches(c: Checkpoint, since: nat, files: Files, h: seq<Checkpoint>) {
    && c.seqNo == |h| + 1 <= MILLION && c.supersedes == Previous(h, c.seqNo) && UnusedId(c.id, h)
    && c.seqNo in files && files[c.seqNo] == File(Empty, since)
  }

  ghost predicate PhaseMatches(phase: Phase, files: Files, now: nat, h: seq<Checkpoint>) {
    match phase
    case Targeting(c) => TargetMatches(c, files, h)
    case Holding(c, since) => since <= now && (Live(now, since) ==> HoldMatches(c, since, files, h))
    case Renamed(c) => 1 <= c.seqNo <= |h| && h[c.seqNo - 1] == c
    case Pruning(todo) => forall n :: n in todo ==> 1 <= n < LatestVisible(h)
    case _ => true
  }

  ghost predicate Pending(phase: Phase) { phase.Targeting? || phase.Holding? }

  ghost predicate LiveHold(phase: Phase, now: nat) { phase.Holding? && Live(now, phase.since) }

  ghost predicate PhasesMatch(s: State) {
    forall p :: p in s.phases ==> PhaseMatches(s.phases[p], s.files, s.now, s.history)
  }

  ghost predicate DistinctIds(phases: map<Pid, Phase>) {
    forall p, q :: p in phases && q in phases && p != q && Pending(phases[p]) && Pending(phases[q])
                   ==> phases[p].next.id != phases[q].next.id
  }

  ghost predicate OneHolder(phases: map<Pid, Phase>, now: nat) {
    forall p, q :: p in phases && q in phases && LiveHold(phases[p], now) && LiveHold(phases[q], now) ==> p == q
  }

  ghost predicate StoreMatches(s: State) {
    |s.history| <= MILLION && Chain(s.history) && FilesMatch(s.files, s.history) && IndexMatches(s.index, s.history)
  }

  ghost predicate Inv(s: State) {
    StoreMatches(s) && PhasesMatch(s) && DistinctIds(s.phases) && OneHolder(s.phases, s.now)
  }

  lemma ValidAreTheRemaining(files: Files, h: seq<Checkpoint>)
    requires Chain(h) && FilesMatch(files, h) && |h| <= MILLION
    ensures forall n :: n in ValidSeqs(files) <==> n in files && n <= LatestVisible(h)
    ensures h != [] ==> ValidSeqs(files) != {} && MaxOf(ValidSeqs(files)) == LatestVisible(h)
    ensures Scan(files) == LastSeen(h)
  {
    forall n
      ensures n in ValidSeqs(files) <==> n in files && n <= LatestVisible(h)
    {
      assert n in ValidSeqs(files) <==> n in files && IsValid(files, n);
    }
    if h == [] {
      assert ValidSeqs(files) == {};
    } else {
      assert LatestVisible(h) in ValidSeqs(files);
    }
  }

  lemma HonestIndex(files: Files, index: Index, h: seq<Checkpoint>)
    requires Chain(h) && FilesMatch(files, h) && IndexMatches(index, h) && |h| <= MILLION
    ensures Untampered(files, index)
  {
    if ReadIndex(index).Some? {
      var e := ReadIndex(index).value;
      ValidAreTheRemaining(files, h);
      if e.seqNo in files {
        assert e.seqNo in ValidSeqs(files);
        assert files[e.seqNo].content == Document(h[e.seqNo - 1]);
      }
    }
  }

  /** The `n`-th publication as a reader would report it. */
  ghost function Nth(h: seq<Checkpoint>, n: nat): Loaded
    requires 1 <= n <= |h|
  {
    Loaded(n, h[n - 1].id, Document(h[n - 1]))
  }

  /** What a reader should report: the latest publication whose name it can see. */
  ghost function LastSeen(h: seq<Checkpoint>): Option<Loaded> {
    if h == [] then None else Some(Nth(h, LatestVisible(h)))
  }

  lemma LoadFindsLatest(files: Files, index: Index, h: seq<Checkpoint>)
    requires Chain(h) && FilesMatch(files, h) && IndexMatches(index, h) && |h| <= MILLION
    ensures Load(files, index) == Ok(Scan(files)) && Scan(files) == LastSeen(h)
  {
    HonestIndex(files, index, h);
    LoadIsScan(files, index);
    ValidAreTheRemaining(files, h);
  }

  // ----- each step keeps the invariant

  /** Changing one publisher's phase, and nothing else it could disturb. */
  lemma MoveKeeps(s: State, p: Pid, phase: Phase)
    requires Inv(s) && PhaseMatches(phase, s.files, s.now, s.history)
    requires Pending(phase) ==> forall q :: q in s.phases && q != p && Pending(s.phases[q]) ==>
                                              s.phases[q].next.id != phase.next.id
    requires LiveHold(phase, s.now) ==> forall q :: q in s.phases && q != p ==> !LiveHold(s.phases[q], s.now)
    ensures Inv(Move(s, p, phase))
  {
  }

  lemma StartKeeps(s: State, p: Pid, id: Id)
    requires Inv(s) && FreshId(s, id)
    ensures Inv(Move(s, p, Target(s.files, s.index, id)))
  {
    LoadFindsLatest(s.files, s.index, s.history);
    var n := LatestVisible(s.history) + 1;
    var next := Checkpoint(id, n, Previous(s.history, n));
    assert Target(s.files, s.index, id) == Targeting(next);
    assert PhaseMatches(Targeting(next), s.files, s.now, s.history);
    MoveKeeps(s, p, Targeting(next));
  }

  lemma ReserveKeeps(s: State, p: Pid)
    requires Inv(s) && p in s.phases && s.phases[p].Targeting?
    ensures Inv(Reserved(s, p, s.phases[p].next))
  {
    var next := s.phases[p].next;
    if next.seqNo in s.files {
      MoveKeeps(s, p, Idle);
    } else {
      assert PhaseMatches(s.phases[p], s.files, s.now, s.history);
      assert next.seqNo == |s.history| + 1;
      forall q | q in s.phases
        ensures !LiveHold(s.phases[q], s.now)
      {
        assert PhaseMatches(s.phases[q], s.files, s.now, s.history);
      }
      var t := s.(files := s.files[next.seqNo := File(Empty, s.now)]);
      forall q | q in s.phases
        ensures PhaseMatches(s.phases[q], t.files, s.now, s.history)
      {
        assert PhaseMatches(s.phases[q], s.files, s.now, s.history);
      }
      assert Inv(t);
      MoveKeeps(t, p, Holding(next, s.now));
    }
  }

  lemma ChainGrows(h: seq<Checkpoint>, c: Checkpoint)
    requires Chain(h) && c.seqNo == |h| + 1 && c.supersedes == Previous(h, |h| + 1) && UnusedId(c.id, h)
    ensures Chain(h + [c])
  {
    var g := h + [c];
    forall i | 0 <= i < |g|
      ensures Linked(g, i)
    {
      if i < |h| { assert Linked(h, i); }
    }
  }

  lemma RenamedStore(files: Files, index: Index, h: seq<Checkpoint>, c: Checkpoint, since: nat)
    requires Chain(h) && FilesMatch(files, h) && IndexMatches(index, h) && HoldMatches(c, since, files, h)
    ensures |h + [c]| <= MILLION && Chain(h + [c]) && IndexMatches(index, h + [c])
    ensures FilesMatch(files[c.seqNo := File(Document(c), since)], h + [c])
  {
    ChainGrows(h, c);
  }

  lemma RenameKeeps(s: State, p: Pid)
    requires Inv(s) && p in s.phases && LiveHold(s.phases[p], s.now)
    ensures Inv(Published(s, p, s.phases[p].next, s.phases[p].since))
    ensures HoldMatches(s.phases[p].next, s.phases[p].since, s.files, s.history)
  {
    hide Chain, FilesMatch, IndexMatches, TargetMatches, UnusedId;
    var c, since := s.phases[p].next, s.phases[p].since;
    assert PhaseMatches(s.phases[p], s.files, s.now, s.history);
    RenamedStore(s.files, s.index, s.history, c, since);
    var t := Published(s, p, c, since);
    forall q | q in t.phases
      ensures PhaseMatches(t.phases[q], t.files, t.now, t.history)
    {
      if q != p {
        assert PhaseMatches(s.phases[q], s.files, s.now, s.history);
        RenameDisturbs(s.phases[q], s, c, since);
      }
    }
  }

  lemma RenameDisturbs(other: Phase, s: State, c: Checkpoint, since: nat)
    requires PhaseMatches(other, s.files, s.now, s.history)
    requires HoldMatches(c, since, s.files, s.history)
    requires Pending(other) ==> other.next.id != c.id
    requires !LiveHold(other, s.now)
    ensures PhaseMatches(other, s.files[c.seqNo := File(Document(c), since)], s.now, s.history + [c])
  {
  }

  lemma UnlinkKeeps(s: State, p: Pid, n: nat)
    requires Inv(s) && p in s.phases && s.phases[p].Pruning? && n in s.phases[p].todo
    requires forall q :: q in s.phases && s.phases[q].Targeting? ==> s.phases[q].next.seqNo != n
    ensures Inv(Unlinked(s, p, n, s.phases[p].todo))
  {
    assert PhaseMatches(s.phases[p], s.files, s.now, s.history);
    var t := s.(files := s.files - {n});
    forall q | q in s.phases
      ensures PhaseMatches(s.phases[q], t.files, s.now, s.history)
    {
      assert PhaseMatches(s.phases[q], s.files, s.now, s.history);
    }
    assert Inv(t);
    MoveKeeps(t, p, Pruning(s.phases[p].todo - {n}));
  }

  lemma PlanKeeps(s: State, p: Pid, cap: nat, cited: set<Id>)
    requires Inv(s)
    ensures Inv(Move(s, p, Pruning(Plan(s.files, cap, cited))))
  {
    ValidAreTheRemaining(s.files, s.history);
    var todo := Plan(s.files, cap, cited);
    forall n | n in todo
      ensures 1 <= n < LatestVisible(s.history)
    {
      assert n in Deletable(s.files, cited);
      assert n in ValidSeqs(s.files);
    }
    MoveKeeps(s, p, Pruning(todo));
  }

  /** Clean-up only ever meets a dead reservation, at the one name after the latest. */
  lemma CleanKeeps(s: State, n: nat)
    requires Inv(s) && Visible(n) && DeadCollision(s.files, n, s.now)
    ensures n == |s.history| + 1 && s.files[n].content == Empty
    ensures Inv(s.(files := s.files - {n}))
  {
    ValidAreTheRemaining(s.files, s.history);
    assert n <= LatestVisible(s.history) ==> n in ValidSeqs(s.files);
    assert n == |s.history| + 1;
    var t := s.(files := s.files - {n});
    forall q | q in s.phases
      ensures PhaseMatches(s.phases[q], t.files, s.now, s.history)
    {
      assert PhaseMatches(s.phases[q], s.files, s.now, s.history);
    }
  }

  lemma TickKeeps(s: State, ms: nat)
    requires Inv(s)
    ensures Inv(s.(now := s.now + ms))
  {
    forall q | q in s.phases
      ensures PhaseMatches(s.phases[q], s.files, s.now + ms, s.history)
    {
      assert PhaseMatches(s.phases[q], s.files, s.now, s.history);
    }
  }

  lemma LostIndexKeeps(s: State, index: Index)
    requires Inv(s) && !index.Parsed?
    ensures Inv(s.(index := index))
  {
  }

  lemma IndexKeeps(s: State, p: Pid)
    requires Inv(s) && p in s.phases && s.phases[p].Renamed?
    ensures Inv(WithIndex(s, p, s.phases[p].done))
  {
    assert PhaseMatches(s.phases[p], s.files, s.now, s.history);
    var t := s.(index := WithIndex(s, p, s.phases[p].done).index);
    assert Inv(t);
    MoveKeeps(t, p, Indexed(s.phases[p].done));
  }

  lemma StepKeeps(s: State, a: Action)
    requires Inv(s) && Enabled(s, a) && Disciplined(s, a)
    ensures Inv(Apply(s, a))
  {
    hide Inv, Target, Plan, FreshId, ValidSeqs;
    match a
    case Start(p, id) => StartKeeps(s, p, id);
    case Reserve(p) => ReserveKeeps(s, p);
    case Rename(p) => RenameKeeps(s, p);
    case WriteIndex(p) => IndexKeeps(s, p);
    case PlanPrune(p, cap, cited) => PlanKeeps(s, p, cap, cited);
    case Unlink(p, n) => UnlinkKeeps(s, p, n);
    case Finish(p) => MoveKeeps(s, p, Idle);
    case Crash(p) => MoveKeeps(s, p, Idle);
    case CleanReservation(n) => CleanKeeps(s, n);
    case CleanCollision(n) => CleanKeeps(s, CollisionSeq(n));
    case Tick(ms) => TickKeeps(s, ms);
    case LoseIndex => LostIndexKeeps(s, Missing);
    case GarbleIndex => LostIndexKeeps(s, Unparseable);
  }
}
