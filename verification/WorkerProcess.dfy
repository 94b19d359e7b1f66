/** The event machine around one worker process: data, errors, a deadline, an abort, the close
    of the process and the timers, in any order the platform can deliver them. */
module WorkerProcesses {
  import opened Options
  import opened Utf

  const OUTPUT_LIMIT: nat := 1024 * 1024

  datatype Failure = Cancelled | TimedOut | OutputTooLarge | Unavailable | Failed

  datatype Outcome = Resolves(output: seq<Byte>) | Rejects(failure: Failure)

  datatype Signal = Terminate | Kill

  /** `alive` is what a look at the process group shows at that moment. */
  datatype Event =
    | Data(chunk: seq<Byte>, stdout: bool)
    | ChildError
    | StdinError
    | Deadline
    | Abort
    | Close(code: Option<int>, alive: bool)
    | KillTimer(alive: bool)
    | PollTimer(alive: bool)

  /** `polls` counts the liveness timers still running: a kill timer may start a second one. */
  datatype State = State(
    output: seq<Byte>, bytes: nat, failure: Option<Failure>, closed: bool, deadlineArmed: bool, killArmed: bool,
    polls: nat, settled: Option<Outcome>, signals: seq<Signal>)

  const START := State([], 0, None, false, true, false, 0, None, [])

  /** What the platform can deliver. Output streams end before the close event, and a timer
      fires only while it is set. */
  predicate Enabled(s: State, e: Event) {
    match e
    case Data(_, _) => !s.closed
    case Deadline => s.deadlineArmed
    case Close(_, _) => !s.closed
    case KillTimer(_) => s.killArmed
    case PollTimer(_) => s.polls > 0
    case _ => true
  }

  // ----- the handlers, as functions

  function Stopped(s: State, failure: Failure): State {
    if s.closed || s.failure.Some? then s
    else s.(failure := Some(failure), signals := s.signals + [Terminate], killArmed := true)
  }

  /** `owned`: the process was started, so its group is ours to outlive. */
  function Finished(s: State, owned: bool, alive: bool): State {
    if !s.closed then s
    else if owned && alive then s.(signals := s.signals + [Kill], polls := s.polls + 1)
    else
      s.(killArmed := false, polls := if s.polls > 0 then s.polls - 1 else 0,
         settled := if s.settled.Some? then s.settled
                    else Some(if s.failure.Some? then Rejects(s.failure.value) else Resolves(s.output)))
  }

  function Step(s: State, owned: bool, e: Event): State {
    match e
    case Data(chunk, stdout) =>
      var t := s.(bytes := s.bytes + |chunk|);
      if t.bytes > OUTPUT_LIMIT then Stopped(t, OutputTooLarge)
      else if stdout && t.failure.None? then t.(output := t.output + chunk)
      else t
    case ChildError => if s.failure.None? then s.(failure := Some(Unavailable)) else s
    case StdinError => Stopped(s, Failed)
    case Deadline => Stopped(s.(deadlineArmed := false), TimedOut)
    case Abort => Stopped(s, Cancelled)
    case Close(code, alive) =>
      var t := s.(closed := true, deadlineArmed := false,
                  failure := if s.failure.None? && code != Some(0) then Some(Failed) else s.failure,
                  signals := s.signals + [Kill]);
      Finished(t, owned, alive)
    case KillTimer(alive) => Finished(s.(killArmed := false, signals := s.signals + [Kill]), owned, alive)
    case PollTimer(alive) => Finished(s.(polls := s.polls - (if s.polls > 0 then 1 else 0)), owned, alive)
  }

  // ----- runs

  function Run(owned: bool, events: seq<Event>): State {
    if events == [] then START else Step(Run(owned, events[..|events| - 1]), owned, events[|events| - 1])
  }

  ghost predicate Possible(owned: bool, events: seq<Event>) {
    forall k :: 0 <= k < |events| ==> Enabled(Run(owned, events[..k]), events[k])
  }

  /** What an event raises on its own, given the bytes up to and including it and whether the
      process had closed before it. */
  function Raises(e: Event, bytes: nat, closed: bool): Option<Failure> {
    match e
    case Data(_, _) => if bytes > OUTPUT_LIMIT && !closed then Some(OutputTooLarge) else None
    case ChildError => Some(Unavailable)
    case StdinError => if closed then None else Some(Failed)
    case Deadline => if closed then None else Some(TimedOut)
    case Abort => if closed then None else Some(Cancelled)
    case Close(code, _) => if code != Some(0) then Some(Failed) else None
    case _ => None
  }

  function TotalBytes(events: seq<Event>): nat {
    if events == [] then 0
    else
      var e := events[|events| - 1];
      TotalBytes(events[..|events| - 1]) + if e.Data? then |e.chunk| else 0
  }

  function StdoutBytes(events: seq<Event>): seq<Byte> {
    if events == [] then []
    else
      var e := events[|events| - 1];
      StdoutBytes(events[..|events| - 1]) + if e.Data? && e.stdout then e.chunk else []
  }

  predicate HasClosed(events: seq<Event>) { exists k :: 0 <= k < |events| && events[k].Close? }

  function RaisedAt(events: seq<Event>, k: nat): Option<Failure>
    requires k < |events|
  {
    Raises(events[k], TotalBytes(events[..k + 1]), HasClosed(events[..k]))
  }

  /** The first failure raised by any event. */
  function FirstRaised(events: seq<Event>, k: nat): Option<Failure>
    requires k <= |events|
    decreases |events| - k
  {
    if k == |events| then None else if RaisedAt(events, k).Some? then RaisedAt(events, k) else FirstRaised(events, k + 1)
  }

  // ----- what every run keeps

  /** The state against the run that led to it. */
  ghost predicate Tracks(s: State, events: seq<Event>) {
    && s.bytes == TotalBytes(events)
    && s.closed == HasClosed(events)
    && s.failure == FirstRaised(events, 0)
    && (s.failure.None? ==> s.output == StdoutBytes(events) && s.bytes <= OUTPUT_LIMIT && CleanClose(events))
  }

  ghost predicate CleanClose(events: seq<Event>) {
    forall k :: 0 <= k < |events| && events[k].Close? ==> events[k].code == Some(0)
  }

  lemma LastClose(events: seq<Event>)
    requires events != []
    ensures HasClosed(events) <==> HasClosed(events[..|events| - 1]) || events[|events| - 1].Close?
    ensures CleanClose(events) <==>
            CleanClose(events[..|events| - 1]) && (events[|events| - 1].Close? ==> events[|events| - 1].code == Some(0))
  {
    var front := events[..|events| - 1];
    assert forall k :: 0 <= k < |front| ==> front[k] == events[k];
  }

  lemma {:induction false} FirstRaisedGrows(events: seq<Event>, e: Event, k: nat)
    requires k <= |events|
    ensures FirstRaised(events + [e], k) ==
            if FirstRaised(events, k).Some? then FirstRaised(events, k) else RaisedAt(events + [e], |events|)
    decreases |events| - k
  {
    var longer := events + [e];
    if k < |events| {
      assert longer[..k + 1] == events[..k + 1] && longer[..k] == events[..k];
      FirstRaisedGrows(events, e, k + 1);
    } else {
      assert FirstRaised(longer, |events| + 1) == None;
    }
  }

  lemma StepTracks(s: State, owned: bool, events: seq<Event>, e: Event)
    requires Tracks(s, events) && Enabled(s, e)
    ensures Tracks(Step(s, owned, e), events + [e])
  {
    hide FirstRaised, HasClosed, TotalBytes, StdoutBytes, CleanClose;
    var longer := events + [e];
    assert longer[..|events|] == events && longer[..|longer|] == longer && longer[|longer| - 1] == e;
    LastClose(longer);
    FirstRaisedGrows(events, e, 0);
    SumsGrow(events, e);
  }

  lemma SumsGrow(events: seq<Event>, e: Event)
    ensures TotalBytes(events + [e]) == TotalBytes(events) + if e.Data? then |e.chunk| else 0
    ensures StdoutBytes(events + [e]) == StdoutBytes(events) + if e.Data? && e.stdout then e.chunk else []
  {
    assert (events + [e])[..|events|] == events;
  }

  lemma StartTracks()
    ensures Tracks(START, [])
  {
  }

  lemma {:induction false} RunTracks(owned: bool, events: seq<Event>)
    requires Possible(owned, events)
    ensures Tracks(Run(owned, events), events)
    decreases |events|
  {
    hide Step, Tracks, Enabled, Possible;
    if events == [] {
      StartTracks();
    } else {
      var front, last := events[..|events| - 1], events[|events| - 1];
      PrefixIsPossible(owned, events, |events| - 1);
      LastIsEnabled(owned, events);
      RunTracks(owned, front);
      StepTracks(Run(owned, front), owned, front, last);
      assert front + [last] == events;
    }
  }

  lemma LastIsEnabled(owned: bool, events: seq<Event>)
    requires Possible(owned, events) && events != []
    ensures Enabled(Run(owned, events[..|events| - 1]), events[|events| - 1])
  {
    hide Enabled, Run;
  }

  /** An event that looks whether anybody of the process group is left. */
  predicate Looks(e: Event) { e.Close? || e.KillTimer? || e.PollTimer? }

  predicate SeesNobody(e: Event) { Looks(e) && !e.alive }

  /** The run up to and including the event at which the promise was settled. */
  ghost predicate SettlesAt(owned: bool, events: seq<Event>, k: nat) {
    && k < |events| && Run(owned, events[..k]).settled.None? && Run(owned, events[..k + 1]).settled.Some?
    && Run(owned, events).settled == Run(owned, events[..k + 1]).settled
  }

  lemma SettledStays(s: State, owned: bool, e: Event)
    ensures s.settled.Some? ==> Step(s, owned, e).settled == s.settled
  {
  }

  lemma {:induction false} SettlingEvent(owned: bool, events: seq<Event>) returns (k: nat)
    requires Run(owned, events).settled.Some?
    ensures SettlesAt(owned, events, k)
    decreases |events|
  {
    hide Step;
    var front := events[..|events| - 1];
    assert events[..|events|] == events;
    if Run(owned, front).settled.None? {
      k := |events| - 1;
    } else {
      SettledStays(Run(owned, front), owned, events[|events| - 1]);
      k := SettlingEvent(owned, front);
      assert front[..k] == events[..k] && front[..k + 1] == events[..k + 1];
    }
  }

  lemma SettlingStep(s: State, owned: bool, e: Event)
    requires s.settled.None? && Step(s, owned, e).settled.Some?
    ensures var t := Step(s, owned, e);
            && t.closed && (owned ==> SeesNobody(e))
            && t.settled == Some(if t.failure.Some? then Rejects(t.failure.value) else Resolves(t.output))
  {
  }

  lemma RunStep(owned: bool, events: seq<Event>, k: nat)
    requires k < |events|
    ensures Run(owned, events[..k + 1]) == Step(Run(owned, events[..k]), owned, events[k])
  {
    assert events[..k + 1][..k] == events[..k] && events[..k + 1][k] == events[k];
  }

  lemma PrefixIsPossible(owned: bool, events: seq<Event>, n: nat)
    requires Possible(owned, events) && n <= |events|
    ensures Possible(owned, events[..n])
  {
    assert forall k :: 0 <= k < n ==> events[..n][..k] == events[..k];
  }

  /** What is known at the event at which the promise settles. */
  lemma AtSettling(owned: bool, events: seq<Event>, k: nat)
    requires Possible(owned, events) && SettlesAt(owned, events, k)
    ensures var s := Run(owned, events[..k + 1]);
            && Tracks(s, events[..k + 1]) && s.closed && (owned ==> SeesNobody(events[k]))
            && Run(owned, events).settled == Some(if s.failure.Some? then Rejects(s.failure.value) else Resolves(s.output))
  {
    hide Run, Step, Tracks, SeesNobody, Possible;
    PrefixIsPossible(owned, events, k + 1);
    RunTracks(owned, events[..k + 1]);
    RunStep(owned, events, k);
    SettlingStep(Run(owned, events[..k]), owned, events[k]);
  }

  /** A started process settles only after it has closed and, at that very moment, its group is
      seen to be gone. */
  lemma SettlesOnlyWhenGone(owned: bool, events: seq<Event>)
    requires Possible(owned, events) && Run(owned, events).settled.Some?
    ensures exists k: nat :: SettlesAt(owned, events, k) && HasClosed(events[..k + 1]) && (owned ==> SeesNobody(events[k]))
  {
    hide Run, Step, SeesNobody, Possible, SettlesAt, HasClosed, FirstRaised, TotalBytes, StdoutBytes;
    var k := SettlingEvent(owned, events);
    AtSettling(owned, events, k);
  }

  /** The outcome is decided by the first failure raised before the process settled, and by
      nothing else; without one it is everything the process wrote to its output. */
  lemma OutcomeIsFirstFailure(owned: bool, events: seq<Event>, k: nat)
    requires Possible(owned, events) && SettlesAt(owned, events, k)
    ensures var seen := events[..k + 1];
            Run(owned, events).settled ==
            Some(if FirstRaised(seen, 0).Some? then Rejects(FirstRaised(seen, 0).value) else Resolves(StdoutBytes(seen)))
  {
    hide Run, Step, SeesNobody, Possible, SettlesAt, HasClosed, FirstRaised, TotalBytes, StdoutBytes;
    AtSettling(owned, events, k);
  }

  /** Success means exit code 0 and no more output, of either stream, than the limit allows. */
  lemma SuccessIsClean(owned: bool, events: seq<Event>)
    requires Possible(owned, events) && Run(owned, events).settled.Some? && Run(owned, events).settled.value.Resolves?
    ensures exists k: nat, j: nat :: SettlesAt(owned, events, k) && j <= k && events[j].Close? && events[j].code == Some(0)
                                     && TotalBytes(events[..k + 1]) <= OUTPUT_LIMIT
  {
    hide Run, Step, SeesNobody, Possible, FirstRaised, TotalBytes, StdoutBytes;
    var k := SettlingEvent(owned, events);
    AtSettling(owned, events, k);
    var seen := events[..k + 1];
    var j :| 0 <= j < |seen| && seen[j].Close?;
    assert seen[j] == events[j];
  }

  // ----- it does settle

  lemma LookSettles(s: State, owned: bool, e: Event)
    requires Looks(e) && (s.closed || e.Close?) && (owned ==> SeesNobody(e))
    ensures Step(s, owned, e).settled.Some?
  {
  }

  lemma {:induction false} StaysSettled(owned: bool, events: seq<Event>, k: nat)
    requires k <= |events| && Run(owned, events[..k]).settled.Some?
    ensures Run(owned, events).settled.Some?
    decreases |events|
  {
    hide Step;
    if k == |events| {
      assert events[..k] == events;
    } else {
      var front := events[..|events| - 1];
      assert front[..k] == events[..k];
      StaysSettled(owned, front, k);
      SettledStays(Run(owned, front), owned, events[|events| - 1]);
    }
  }

  /** The process has closed, and then or later its group is seen to be gone. */
  ghost predicate GoneAfterClose(events: seq<Event>) {
    exists k :: 0 <= k < |events| && SeesNobody(events[k]) && HasClosed(events[..k + 1])
  }

  /** A started process settles exactly when it has closed and its group has been seen to be
      gone; one that was never started settles when it closes. */
  lemma SettlesExactlyWhenGone(owned: bool, events: seq<Event>)
    requires Possible(owned, events)
    ensures Run(owned, events).settled.Some? <==> if owned then GoneAfterClose(events) else HasClosed(events)
  {
    hide Run, Step, Possible;
    if Run(owned, events).settled.Some? {
      SettlesOnlyWhenGone(owned, events);
      var k: nat :| SettlesAt(owned, events, k) && HasClosed(events[..k + 1]) && (owned ==> SeesNobody(events[k]));
      var j :| 0 <= j < k + 1 && events[..k + 1][j].Close?;
      assert events[j].Close?;
    }
    if owned && GoneAfterClose(events) {
      var k :| 0 <= k < |events| && SeesNobody(events[k]) && HasClosed(events[..k + 1]);
      LookAt(owned, events, k);
    }
    if !owned && HasClosed(events) {
      var k :| 0 <= k < |events| && events[k].Close?;
      assert events[..k + 1][k].Close?;
      LookAt(owned, events, k);
    }
  }

  lemma LookAt(owned: bool, events: seq<Event>, k: nat)
    requires Possible(owned, events) && k < |events| && Looks(events[k]) && (owned ==> SeesNobody(events[k]))
    requires HasClosed(events[..k + 1])
    ensures Run(owned, events).settled.Some?
  {
    hide Run, Step, Possible;
    PrefixIsPossible(owned, events, k);
    RunTracks(owned, events[..k]);
    LastClose(events[..k + 1]);
    assert events[..k + 1][..k] == events[..k] && events[..k + 1][k] == events[k];
    RunStep(owned, events, k);
    LookSettles(Run(owned, events[..k]), owned, events[k]);
    StaysSettled(owned, events, k + 1);
  }

  /** While a closed process has not settled, a look is due. */
  ghost predicate LookIsDue(s: State) { if s.closed then s.settled.None? ==> s.polls > 0 else s.polls == 0 && s.settled.None? }

  lemma LookStaysDue(s: State, owned: bool, e: Event)
    requires LookIsDue(s) && Enabled(s, e)
    ensures LookIsDue(Step(s, owned, e))
  {
  }

  lemma {:induction false} LookIsAlwaysDue(owned: bool, events: seq<Event>)
    requires Possible(owned, events)
    ensures LookIsDue(Run(owned, events))
    decreases |events|
  {
    hide Step, Enabled, Possible;
    if events != [] {
      var front := events[..|events| - 1];
      PrefixIsPossible(owned, events, |events| - 1);
      LastIsEnabled(owned, events);
      LookIsAlwaysDue(owned, front);
      LookStaysDue(Run(owned, front), owned, events[|events| - 1]);
    }
  }

  /** No run is stuck: until the process closes its close can come, and from then on a look is
      due that settles as soon as it sees nobody. */
  lemma NeverStuck(owned: bool, events: seq<Event>, code: Option<int>)
    requires Possible(owned, events) && Run(owned, events).settled.None?
    ensures var next := if HasClosed(events) then PollTimer(false) else Close(code, false);
            Possible(owned, events + [next]) && Run(owned, events + [next]).settled.Some?
  {
    hide Step;
    var next := if HasClosed(events) then PollTimer(false) else Close(code, false);
    RunTracks(owned, events);
    LookIsAlwaysDue(owned, events);
    var longer := events + [next];
    assert longer[..|longer| - 1] == events && longer[|events|] == next;
    LookSettles(Run(owned, events), owned, next);
    forall k | 0 <= k < |longer|
      ensures Enabled(Run(owned, longer[..k]), longer[k])
    {
      if k < |events| { assert longer[..k] == events[..k] && longer[k] == events[k]; } else { assert longer[..k] == events; }
    }
  }

  // ----- the handlers, in place

  class WorkerProcess {
    /** The process was started, so a group exists that must be outlived. */
    const owned: bool
    var output: seq<Byte>
    var bytes: nat
    var failure: Option<Failure>
    var closed: bool
    var deadlineArmed: bool
    var killArmed: bool
    var polls: nat
    var settled: Option<Outcome>
    var signals: seq<Signal>

    function Now(): State
      reads this
    {
      State(output, bytes, failure, closed, deadlineArmed, killArmed, polls, settled, signals)
    }

    constructor (owned: bool)
      ensures Now() == START && this.owned == owned
    {
      this.owned, output, bytes, failure, closed := owned, [], 0, None, false;
      deadlineArmed, killArmed, polls, settled, signals := true, false, 0, None, [];
    }

    method SignalTree(signal: Signal)
      modifies `signals
      ensures signals == old(signals) + [signal]
    {
      signals := signals + [signal];
    }

    method Stop(error: Failure)
      modifies this
      ensures Now() == Stopped(old(Now()), error)
    {
      if closed || failure.Some? {
        return;
      }
      failure := Some(error);
      SignalTree(Terminate);
      killArmed := true;
    }

    method Finish(alive: bool)
      modifies this
      ensures Now() == Finished(old(Now()), owned, alive)
    {
      if !closed {
        return;
      }
      if owned && alive {
        SignalTree(Kill);
        polls := polls + 1;
        return;
      }
      killArmed := false;
      if polls > 0 {
        polls := polls - 1;
      }
      if settled.None? {
        settled := Some(if failure.Some? then Rejects(failure.value) else Resolves(output));
      }
    }

    method Consume(chunk: seq<Byte>, stdout: bool)
      modifies this
      ensures Now() == Step(old(Now()), owned, Data(chunk, stdout))
    {
      bytes := bytes + |chunk|;
      if bytes > OUTPUT_LIMIT {
        Stop(OutputTooLarge);
      } else if stdout && failure.None? {
        output := output + chunk;
      }
    }

    method OnClose(code: Option<int>, alive: bool)
      modifies this
      ensures Now() == Step(old(Now()), owned, Close(code, alive))
    {
      closed, deadlineArmed := true, false;
      if failure.None? && code != Some(0) {
        failure := Some(Failed);
      }
      SignalTree(Kill);
      Finish(alive);
    }

    method Handle(e: Event)
      requires Enabled(Now(), e)
      modifies this
      ensures Now() == Step(old(Now()), owned, e)
    {
      match e {
        case Data(chunk, stdout) => Consume(chunk, stdout);
        case ChildError =>
          if failure.None? {
            failure := Some(Unavailable);
          }
        case StdinError => Stop(Failed);
        case Deadline =>
          deadlineArmed := false;
          Stop(TimedOut);
        case Abort => Stop(Cancelled);
        case Close(code, alive) => OnClose(code, alive);
        case KillTimer(alive) =>
          killArmed := false;
          SignalTree(Kill);
          Finish(alive);
        case PollTimer(alive) =>
          polls := polls - 1;
          Finish(alive);
      }
    }

    /** A whole run, event by event. */
    method HandleAll(events: seq<Event>)
      requires Now() == START && Possible(owned, events)
      modifies this
      ensures Now() == Run(owned, events)
    {
      hide Step, Enabled;
      var i := 0;
      while i < |events|
        invariant 0 <= i <= |events| && Now() == Run(owned, events[..i])
      {
        RunStep(owned, events, i);
        Handle(events[i]);
        i := i + 1;
      }
      assert events[..|events|] == events;
    }
  }
}
