/**
  * One evidence run under its overall deadline: the runner of
  * scripts/evidence-browser-runner.ts and `withOverallDeadline` of
  * scripts/evidence-browser-runtime.ts. Timers fire when they are due: time does not pass a
  * timer that is armed.
  */
module EvidenceRun {
  import opened Options

  datatype TaskState = TaskRunning | TaskFulfilled | TaskRejected

  /** The promise of `work()`: the task, then the shutdown, then done. */
  datatype Work = AwaitingTask | AwaitingShutdown | WorkFulfilled | WorkRejected

  /** The memoized shutdown promise. */
  datatype Shutdown = NotAsked | Asked | Started | Succeeded | Failed

  /** The teardown after the deadline fired: `onTimeout` not yet called, called, or settled. */
  datatype Teardown = NoTeardown | TeardownDue | TeardownRunning | TeardownSettled

  datatype Outer = Pending | Resolved | Rejected

  datatype State = State(
    timeoutMs: nat,
    teardownMs: nat,
    now: nat,
    task: TaskState,
    work: Work,
    shutdown: Shutdown,
    shutdownStarts: nat,
    settled: bool,
    fired: bool,
    teardown: Teardown,
    outer: Outer,
    outerSettles: nat,
    settledAt: nat,
    scratchRemoved: bool)

  /** Both bounds must be positive; otherwise the run is rejected without arming anything. */
  function Begin(timeoutMs: nat, teardownMs: nat): State {
    var valid := timeoutMs > 0 && teardownMs > 0;
    State(timeoutMs, teardownMs, 0, TaskRunning, AwaitingTask, NotAsked, 0,
          !valid, false, NoTeardown, if valid then Pending else Rejected, if valid then 0 else 1, 0, false)
  }

  datatype Event =
    | TimePasses(ms: nat)
    | TaskSettles(ok: bool)
    | ShutdownStarts
    | ShutdownSettles(ok: bool)
    | WorkSettles
    | OperationDelivered
    | DeadlineTimer
    | OnTimeoutCalled
    | TeardownDone
    | TeardownTimer
    | ScratchRemoved

  function Bound(s: State): nat {
    s.timeoutMs + s.teardownMs
  }

  predicate ShutdownDone(s: State) {
    s.shutdown == Succeeded || s.shutdown == Failed
  }

  predicate TeardownPending(s: State) {
    s.teardown == TeardownDue || s.teardown == TeardownRunning
  }

  predicate Enabled(s: State, e: Event) {
    match e
    case TimePasses(ms) =>
      && (!s.settled ==> s.now + ms <= s.timeoutMs)
      && (TeardownPending(s) ==> s.now + ms <= Bound(s))
    case TaskSettles(_) => s.task == TaskRunning
    case ShutdownStarts => s.shutdown == Asked
    case ShutdownSettles(_) => s.shutdown == Started
    case WorkSettles => s.work == AwaitingShutdown && ShutdownDone(s)
    case OperationDelivered => s.work == WorkFulfilled || s.work == WorkRejected
    case DeadlineTimer => !s.settled && s.now == s.timeoutMs
    case OnTimeoutCalled => s.teardown == TeardownDue
    case TeardownDone => s.teardown == TeardownRunning && ShutdownDone(s)
    case TeardownTimer => TeardownPending(s) && s.now == Bound(s)
    case ScratchRemoved => s.outer == Resolved
  }

  /** `shutdownOnce`: the first caller makes the promise, later callers share it. */
  function AskShutdown(s: State): State {
    if s.shutdown == NotAsked then s.(shutdown := Asked) else s
  }

  function SettleOuter(s: State, outer: Outer): State {
    s.(outer := outer, outerSettles := s.outerSettles + 1, settledAt := s.now)
  }

  function Step(s: State, e: Event): State
    requires Enabled(s, e)
  {
    match e
    case TimePasses(ms) => s.(now := s.now + ms)
    case TaskSettles(ok) =>
      AskShutdown(s).(task := if ok then TaskFulfilled else TaskRejected, work := AwaitingShutdown)
    case ShutdownStarts => s.(shutdown := Started, shutdownStarts := s.shutdownStarts + 1)
    case ShutdownSettles(ok) => s.(shutdown := if ok then Succeeded else Failed)
    case WorkSettles =>
      s.(work := if s.task == TaskFulfilled && s.shutdown == Succeeded then WorkFulfilled else WorkRejected)
    case OperationDelivered =>
      if s.settled then s
      else SettleOuter(s.(settled := true), if s.work == WorkFulfilled then Resolved else Rejected)
    case DeadlineTimer => s.(settled := true, fired := true, teardown := TeardownDue)
    case OnTimeoutCalled => AskShutdown(s).(teardown := TeardownRunning)
    case TeardownDone => SettleOuter(s.(teardown := TeardownSettled), Rejected)
    case TeardownTimer => SettleOuter(s.(teardown := TeardownSettled), Rejected)
    case ScratchRemoved => s.(scratchRemoved := true)
  }

  predicate ValidRun(s: State, events: seq<Event>)
    decreases |events|
  {
    events != [] ==> Enabled(s, events[0]) && ValidRun(Step(s, events[0]), events[1..])
  }

  function Run(s: State, events: seq<Event>): State
    requires ValidRun(s, events)
    decreases |events|
  {
    if events == [] then s else Run(Step(s, events[0]), events[1..])
  }

  // ---------------------------------------------------------------- what every step keeps

  predicate Begun(s: State) {
    s.shutdown == Started || ShutdownDone(s)
  }

  ghost predicate SettlementInv(s: State) {
    && s.outerSettles == (if s.outer == Pending then 0 else 1)
    && (s.outer == Pending <==> !s.settled || TeardownPending(s))
    && (s.fired <==> s.teardown != NoTeardown)
    && (s.fired ==> s.settled && s.outer != Resolved)
  }

  ghost predicate TimeInv(s: State) {
    && (!s.settled ==> s.now <= s.timeoutMs)
    && (TeardownPending(s) ==> s.timeoutMs <= s.now <= Bound(s))
    && (s.outer != Pending ==> s.settledAt <= if s.fired then Bound(s) else s.timeoutMs)
  }

  ghost predicate WorkInv(s: State) {
    && s.shutdownStarts == (if Begun(s) then 1 else 0)
    && (s.work == AwaitingTask <==> s.task == TaskRunning)
    && (s.work == WorkFulfilled ==> s.task == TaskFulfilled && s.shutdown == Succeeded)
    && (s.work == WorkRejected ==> s.task == TaskRejected || s.shutdown == Failed)
    && (s.task != TaskRunning || s.teardown == TeardownRunning ==> s.shutdown != NotAsked)
    && (s.outer == Resolved ==> s.work == WorkFulfilled)
    && (s.scratchRemoved ==> s.outer == Resolved)
  }

  ghost predicate Inv(s: State) {
    SettlementInv(s) && TimeInv(s) && WorkInv(s)
  }

  lemma StepKeepsInv(s: State, e: Event)
    requires Inv(s) && Enabled(s, e)
    ensures Inv(Step(s, e))
    ensures Step(s, e).timeoutMs == s.timeoutMs && Step(s, e).teardownMs == s.teardownMs
    ensures s.outer != Pending ==> Step(s, e).outer == s.outer && Step(s, e).settledAt == s.settledAt
  {
  }

  lemma {:induction false} RunKeepsInv(s: State, events: seq<Event>)
    requires Inv(s) && ValidRun(s, events)
    ensures var t := Run(s, events);
            && Inv(t) && t.timeoutMs == s.timeoutMs && t.teardownMs == s.teardownMs
            && (s.outer != Pending ==> t.outer == s.outer && t.settledAt == s.settledAt)
    decreases |events|
  {
    if events != [] {
      StepKeepsInv(s, events[0]);
      RunKeepsInv(Step(s, events[0]), events[1..]);
    }
  }

  /**
    * Over every run: evidence is removed only when the task fulfilled, the browser shut down
    * and the deadline had not fired, and the shutdown was started at most once.
    */
  lemma EvidenceRemovedOnlyAfterCleanRun(timeoutMs: nat, teardownMs: nat, events: seq<Event>)
    requires ValidRun(Begin(timeoutMs, teardownMs), events)
    ensures var s := Run(Begin(timeoutMs, teardownMs), events);
            && (s.scratchRemoved ==>
                  s.task == TaskFulfilled && s.shutdown == Succeeded && !s.fired && s.outer == Resolved)
            && s.shutdownStarts <= 1
  {
    RunKeepsInv(Begin(timeoutMs, teardownMs), events);
  }

  /**
    * Over every run: the outer result settles at most once, by the deadline if it did not fire
    * and by the deadline plus the teardown bound if it did, and once that much time has passed
    * it has settled, whatever the task, the shutdown or the teardown do.
    */
  lemma OuterSettlesOnceInTime(timeoutMs: nat, teardownMs: nat, events: seq<Event>)
    requires ValidRun(Begin(timeoutMs, teardownMs), events)
    ensures var s := Run(Begin(timeoutMs, teardownMs), events);
            && s.outerSettles <= 1 && (s.outerSettles == 1 <==> s.outer != Pending)
            && (s.outer != Pending ==> s.settledAt <= if s.fired then timeoutMs + teardownMs else timeoutMs)
            && (s.now > timeoutMs + teardownMs ==> s.outer != Pending)
  {
    RunKeepsInv(Begin(timeoutMs, teardownMs), events);
  }

  /** Nothing waits for ever: a pending run always has a step that is not an operation of its own. */
  lemma NeverStuck(s: State)
    requires Inv(s) && s.outer == Pending
    ensures || Enabled(s, DeadlineTimer)
            || Enabled(s, TeardownTimer)
            || (Enabled(s, TimePasses(1)) && s.now < Bound(s))
  {
  }

  // ---------------------------------------------------------------- a clean run succeeds

  /** A result delivered before the deadline is a success exactly when task and shutdown both succeeded. */
  lemma DeliveredVerdict(s: State)
    requires Inv(s) && Enabled(s, OperationDelivered) && !s.settled
    ensures var t := Step(s, OperationDelivered);
            && (t.outer == Resolved <==> s.task == TaskFulfilled && s.shutdown == Succeeded)
            && (t.outer == Rejected <==> s.task == TaskRejected || s.shutdown == Failed)
            && t.settledAt == s.now
  {
  }

  /** A settled task always has its shutdown on the way, and once that is through the run can be settled. */
  lemma SettledTaskGoesOn(s: State)
    requires Inv(s) && s.task != TaskRunning && !s.settled
    ensures || Enabled(s, ShutdownStarts) || s.shutdown == Started
            || Enabled(s, WorkSettles) || Enabled(s, OperationDelivered)
  {
  }

  /** A deadline that has fired always has its shutdown asked for once its callback ran, and rejects. */
  lemma FiredRunRejects(s: State)
    requires Inv(s) && s.fired
    ensures s.outer == Pending || s.outer == Rejected
    ensures s.teardown == TeardownRunning ==> Enabled(s, ShutdownStarts) || s.shutdown == Started || Enabled(s, TeardownDone)
  {
  }

  /** A run whose bounds are not both positive is rejected at once, with nothing armed. */
  lemma BadBoundsReject(timeoutMs: nat, teardownMs: nat)
    ensures var s := Begin(timeoutMs, teardownMs);
            && (s.outer == Rejected && s.settled <==> timeoutMs == 0 || teardownMs == 0)
            && (timeoutMs == 0 || teardownMs == 0 ==> !Enabled(s, DeadlineTimer) && s.settledAt == 0)
  {
  }

  /** The deadline fires once and starts the teardown; whichever ends that, the run is rejected then and there. */
  lemma TimersSettle(s: State)
    requires Inv(s)
    ensures Enabled(s, DeadlineTimer) ==>
              var t := Step(s, DeadlineTimer);
              t.fired && t.teardown == TeardownDue && t.outer == Pending && !Enabled(t, DeadlineTimer) && Enabled(t, OnTimeoutCalled)
    ensures Enabled(s, TeardownTimer) ==>
              Step(s, TeardownTimer).outer == Rejected && Step(s, TeardownTimer).settledAt == s.timeoutMs + s.teardownMs
    ensures Enabled(s, TeardownDone) ==> Step(s, TeardownDone).outer == Rejected && Step(s, TeardownDone).settledAt == s.now
  {
  }

  lemma RunOfNext(s: State, e: Event, rest: seq<Event>)
    requires Enabled(s, e) && ValidRun(Step(s, e), rest)
    ensures ValidRun(s, [e] + rest) && Run(s, [e] + rest) == Run(Step(s, e), rest)
  {
    assert ([e] + rest)[0] == e && ([e] + rest)[1..] == rest;
  }

  /** The shutdown succeeds, and the result is delivered. */
  function CleanEnd(): seq<Event> {
    [ShutdownSettles(true), WorkSettles, OperationDelivered, ScratchRemoved]
  }

  lemma CleanEndSucceeds(s: State)
    requires s.task == TaskFulfilled && s.work == AwaitingShutdown && s.shutdown == Started && !s.settled
    ensures ValidRun(s, CleanEnd())
    ensures var t := Run(s, CleanEnd());
            t.outer == Resolved && t.scratchRemoved && t.settledAt == s.now
  {
    var s1 := Step(s, ShutdownSettles(true));
    var s2 := Step(s1, WorkSettles);
    var s3 := Step(s2, OperationDelivered);
    RunOfNext(s3, ScratchRemoved, []);
    RunOfNext(s2, OperationDelivered, [ScratchRemoved]);
    RunOfNext(s1, WorkSettles, [OperationDelivered, ScratchRemoved]);
    RunOfNext(s, ShutdownSettles(true), [WorkSettles, OperationDelivered, ScratchRemoved]);
  }

  /** The steps of a run in which everything goes well, `ms` after it began. */
  function CleanSteps(ms: nat): seq<Event> {
    [TimePasses(ms)] + ([TaskSettles(true)] + ([ShutdownStarts] + CleanEnd()))
  }

  /** Such a run resolves within its deadline and removes its evidence. */
  lemma CleanRunSucceeds(timeoutMs: nat, teardownMs: nat, ms: nat)
    requires 0 < timeoutMs && 0 < teardownMs && ms <= timeoutMs
    ensures var s := Begin(timeoutMs, teardownMs);
            && ValidRun(s, CleanSteps(ms))
            && Run(s, CleanSteps(ms)).outer == Resolved && Run(s, CleanSteps(ms)).scratchRemoved
            && Run(s, CleanSteps(ms)).settledAt == ms
  {
    var s0 := Begin(timeoutMs, teardownMs);
    var s1 := Step(s0, TimePasses(ms));
    var s2 := Step(s1, TaskSettles(true));
    CleanEndSucceeds(Step(s2, ShutdownStarts));
    RunOfNext(s2, ShutdownStarts, CleanEnd());
    RunOfNext(s1, TaskSettles(true), [ShutdownStarts] + CleanEnd());
    RunOfNext(s0, TimePasses(ms), [TaskSettles(true)] + ([ShutdownStarts] + CleanEnd()));
  }

  // ---------------------------------------------------------------- the handlers

  /** The variables the runner's closures and the deadline's handlers share, and the handlers. */
  class EvidenceRunner {
    const timeoutMs: nat
    const teardownMs: nat
    var now: nat
    var task: TaskState
    var work: Work
    var shutdown: Shutdown
    var shutdownStarts: nat
    var settled: bool
    var fired: bool
    var teardown: Teardown
    var outer: Outer
    ghost var outerSettles: nat
    ghost var settledAt: nat
    var scratchRemoved: bool

    ghost function Model(): State
      reads this
    {
      State(timeoutMs, teardownMs, now, task, work, shutdown, shutdownStarts, settled, fired, teardown,
            outer, outerSettles, settledAt, scratchRemoved)
    }

    constructor (timeoutMs: nat, teardownMs: nat)
      ensures Model() == Begin(timeoutMs, teardownMs)
    {
      this.timeoutMs := timeoutMs;
      this.teardownMs := teardownMs;
      now, task, work, shutdown, shutdownStarts := 0, TaskRunning, AwaitingTask, NotAsked, 0;
      settled, fired, teardown, outer, outerSettles := false, false, NoTeardown, Pending, 0;
      settledAt, scratchRemoved := 0, false;
      if timeoutMs == 0 || teardownMs == 0 {
        settled, outer, outerSettles := true, Rejected, 1;
      }
    }

    method ShutdownOnce()
      modifies this`shutdown
      ensures Model() == AskShutdown(old(Model()))
    {
      if shutdown == NotAsked {
        shutdown := Asked;
      }
    }

    /** `work` after the task: either way it waits for the one shutdown. */
    method OnTaskSettled(ok: bool)
      requires task == TaskRunning
      modifies this
      ensures Model() == Step(old(Model()), TaskSettles(ok))
    {
      task := if ok then TaskFulfilled else TaskRejected;
      ShutdownOnce();
      work := AwaitingShutdown;
    }

    /** `work` after the shutdown: a failed shutdown fails the run even when the task did not. */
    method OnShutdownSettled()
      requires work == AwaitingShutdown && (shutdown == Succeeded || shutdown == Failed)
      modifies this
      ensures Model() == Step(old(Model()), WorkSettles)
    {
      if task == TaskFulfilled {
        if shutdown == Failed {
          work := WorkRejected;
        } else {
          work := WorkFulfilled;
        }
      } else {
        work := WorkRejected;
      }
    }

    method OnOperation()
      requires work == WorkFulfilled || work == WorkRejected
      modifies this
      ensures Model() == Step(old(Model()), OperationDelivered)
    {
      if settled {
        return;
      }
      settled := true;
      outer := if work == WorkFulfilled then Resolved else Rejected;
      outerSettles, settledAt := outerSettles + 1, now;
    }

    method OnDeadline()
      requires now == timeoutMs
      modifies this
      ensures Model() == if old(settled) then old(Model()) else Step(old(Model()), DeadlineTimer)
    {
      if settled {
        return;
      }
      settled := true;
      fired := true;
      teardown := TeardownDue;
    }

    method OnTimeout()
      requires teardown == TeardownDue
      modifies this
      ensures Model() == Step(old(Model()), OnTimeoutCalled)
    {
      ShutdownOnce();
      teardown := TeardownRunning;
    }

    /** The teardown finished, well or badly: the run was timed out either way. */
    method OnTeardownDone()
      requires teardown == TeardownRunning || teardown == TeardownSettled
      requires shutdown == Succeeded || shutdown == Failed
      modifies this
      ensures Model() == if old(teardown) == TeardownSettled then old(Model()) else Step(old(Model()), TeardownDone)
    {
      if teardown == TeardownSettled {
        return;
      }
      teardown := TeardownSettled;
      outer := Rejected;
      outerSettles, settledAt := outerSettles + 1, now;
    }

    method OnTeardownTimer()
      requires teardown != NoTeardown && now == timeoutMs + teardownMs
      modifies this
      ensures Model() == if old(teardown) == TeardownSettled then old(Model()) else Step(old(Model()), TeardownTimer)
    {
      if teardown == TeardownSettled {
        return;
      }
      teardown := TeardownSettled;
      outer := Rejected;
      outerSettles, settledAt := outerSettles + 1, now;
    }

    method RemoveScratch()
      modifies this`scratchRemoved
      ensures Model() == if outer == Resolved then Step(old(Model()), ScratchRemoved) else old(Model())
    {
      if outer == Resolved {
        scratchRemoved := true;
      }
    }
  }
}
