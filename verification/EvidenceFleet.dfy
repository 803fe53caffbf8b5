/**
  * Any number of evidence runs against one browser profile: the runner of
  * scripts/evidence-browser-runner.ts over the sessions of scripts/evidence-browser-runtime.ts.
  * A runner whose connection fails terminates its session; one that connects shuts it down
  * through its memoized shutdown, whose outcome is that of the session's own call. A runner's
  * call carries its run's number.
  */
module EvidenceFleet {
  import opened Options
  import Lease = BrowserLease
  import Evidence = EvidenceRun

  type RunId = Lease.RunId

  datatype Runner =
    | Connecting
    | GivingUp                        // connecting failed, the session is being terminated
    | Working(run: Evidence.State)

  datatype Fleet = Fleet(profile: Lease.Profile, runners: map<RunId, Runner>)

  const IDLE := Fleet(Lease.UNUSED, map[])

  datatype Event =
    | Acquires(run: RunId)
    | StartReturns(run: RunId, ok: bool)
    | Connects(run: RunId, timeoutMs: nat, teardownMs: nat)
    | ConnectFails(run: RunId)
    | RunStep(run: RunId, step: Evidence.Event)
    | ShutdownBegins(run: RunId, validTimeout: bool)
    | ShutdownEnds(run: RunId)
    | ProfileStep(inner: Lease.Event)

  predicate IsWorking(f: Fleet, r: RunId) {
    r in f.runners && f.runners[r].Working?
  }

  predicate IsConnecting(f: Fleet, r: RunId) {
    r in f.runners && f.runners[r].Connecting?
  }

  /** The steps of a run that do not touch its session. */
  predicate OwnStep(e: Evidence.Event) {
    !e.ShutdownStarts? && !e.ShutdownSettles?
  }

  /** The steps of processes and of calls already begun. */
  predicate SessionStep(e: Lease.Event) {
    e.ProcessDies? || (Lease.IsCallStep(e) && !e.BeginShutdown? && !e.BeginTermination?)
  }

  predicate CanHappen(f: Fleet, e: Event) {
    match e
    case Acquires(r) => Lease.Enabled(f.profile, Lease.Acquire(r))
    case StartReturns(r, ok) => Lease.Enabled(f.profile, StartOf(r, ok))
    case Connects(r, _, _) => IsConnecting(f, r)
    case ConnectFails(r) => IsConnecting(f, r) && Lease.Enabled(f.profile, Lease.BeginTermination(r, r))
    case RunStep(r, step) => IsWorking(f, r) && OwnStep(step) && Evidence.Enabled(f.runners[r].run, step)
    case ShutdownBegins(r, valid) =>
      && IsWorking(f, r) && Evidence.Enabled(f.runners[r].run, Evidence.ShutdownStarts)
      && Lease.Enabled(f.profile, Lease.BeginShutdown(r, r, valid))
    case ShutdownEnds(r) =>
      && IsWorking(f, r) && r in f.profile.calls && f.profile.calls[r].stage.Done?
      && Evidence.Enabled(f.runners[r].run, Evidence.ShutdownSettles(f.profile.calls[r].stage.ok))
    case ProfileStep(inner) => SessionStep(inner) && Lease.Enabled(f.profile, inner)
  }

  function StartOf(r: RunId, ok: bool): Lease.Event {
    if ok then Lease.StartSucceeds(r) else Lease.StartFails(r, r)
  }

  function Put(f: Fleet, r: RunId, runner: Runner): Fleet {
    f.(runners := f.runners[r := runner])
  }

  function Step(f: Fleet, e: Event): Fleet
    requires CanHappen(f, e)
  {
    match e
    case Acquires(r) => f.(profile := Lease.Step(f.profile, Lease.Acquire(r)))
    case StartReturns(r, ok) =>
      var started := f.(profile := Lease.Step(f.profile, StartOf(r, ok)));
      if ok then Put(started, r, Connecting) else started
    case Connects(r, timeoutMs, teardownMs) => Put(f, r, Working(Evidence.Begin(timeoutMs, teardownMs)))
    case ConnectFails(r) =>
      Put(f, r, GivingUp).(profile := Lease.Step(f.profile, Lease.BeginTermination(r, r)))
    case RunStep(r, step) => Put(f, r, Working(Evidence.Step(f.runners[r].run, step)))
    case ShutdownBegins(r, valid) =>
      Put(f, r, Working(Evidence.Step(f.runners[r].run, Evidence.ShutdownStarts)))
        .(profile := Lease.Step(f.profile, Lease.BeginShutdown(r, r, valid)))
    case ShutdownEnds(r) =>
      Put(f, r, Working(Evidence.Step(f.runners[r].run, Evidence.ShutdownSettles(f.profile.calls[r].stage.ok))))
    case ProfileStep(inner) => f.(profile := Lease.Step(f.profile, inner))
  }

  predicate ValidRun(f: Fleet, events: seq<Event>)
    decreases |events|
  {
    events != [] ==> CanHappen(f, events[0]) && ValidRun(Step(f, events[0]), events[1..])
  }

  function Run(f: Fleet, events: seq<Event>): Fleet
    requires ValidRun(f, events)
    decreases |events|
  {
    if events == [] then f else Run(Step(f, events[0]), events[1..])
  }

  // ---------------------------------------------------------------- what every step keeps

  /** Every call is the one call of its run. */
  ghost predicate OneCallEach(p: Lease.Profile) {
    forall c :: c in p.calls ==> p.calls[c].run == c
  }

  lemma OneCallNeverOverlaps(p: Lease.Profile)
    requires OneCallEach(p)
    ensures !Lease.Overlaps(p)
  {
  }

  /** What a run has recorded of its shutdown is what its session's call has come to. */
  ghost predicate Linked(p: Lease.Profile, r: RunId, s: Evidence.State) {
    && (r in p.calls <==> Evidence.Begun(s))
    && (s.shutdown == Evidence.Succeeded ==> Lease.AtStage(p, r, Lease.Done(true)))
  }

  ghost predicate RunnerInv(p: Lease.Profile, r: RunId, runner: Runner) {
    && Lease.InPhase(p, r, Lease.Started)
    && (runner.Connecting? ==> r !in p.calls)
    && (runner.Working? ==> Evidence.Inv(runner.run) && Linked(p, r, runner.run))
  }

  ghost predicate Inv(f: Fleet) {
    && Lease.Inv(f.profile) && OneCallEach(f.profile)
    && forall r :: r in f.runners ==> RunnerInv(f.profile, r, f.runners[r])
  }

  /** A session step ends no phase, opens no call, and changes no call that is done. */
  lemma SessionStepKeeps(p: Lease.Profile, e: Lease.Event)
    requires SessionStep(e) && Lease.Enabled(p, e)
    ensures var q := Lease.Step(p, e);
            && q.runs == p.runs && q.calls.Keys == p.calls.Keys
            && (forall c :: c in p.calls ==> q.calls[c].run == p.calls[c].run)
            && (forall c, ok :: Lease.AtStage(p, c, Lease.Done(ok)) ==> Lease.AtStage(q, c, Lease.Done(ok)))
  {
  }

  /** A step that opens a call opens the run's own. */
  predicate OwnCall(e: Lease.Event) {
    (e.StartFails? || e.BeginShutdown? || e.BeginTermination?) ==> e.call == e.run
  }

  lemma ProfileAdvances(p: Lease.Profile, e: Lease.Event)
    requires Lease.Inv(p) && OneCallEach(p) && Lease.Enabled(p, e) && OwnCall(e)
    ensures Lease.Inv(Lease.Step(p, e)) && OneCallEach(Lease.Step(p, e))
  {
    OneCallNeverOverlaps(p);
    Lease.StepKeepsInv(p, e);
  }

  /** `q` says of run `r` what `p` said. */
  ghost predicate SameFor(p: Lease.Profile, q: Lease.Profile, r: RunId) {
    && (Lease.InPhase(p, r, Lease.Started) ==> Lease.InPhase(q, r, Lease.Started))
    && (r in q.calls <==> r in p.calls)
    && (Lease.AtStage(p, r, Lease.Done(true)) ==> Lease.AtStage(q, r, Lease.Done(true)))
  }

  lemma RunnerUnmoved(p: Lease.Profile, q: Lease.Profile, r: RunId, runner: Runner)
    requires RunnerInv(p, r, runner) && SameFor(p, q, r)
    ensures RunnerInv(q, r, runner)
  {
  }

  lemma OthersUnmoved(f: Fleet, q: Lease.Profile, moved: RunId)
    requires Inv(f) && forall r :: r in f.runners && r != moved ==> SameFor(f.profile, q, r)
    ensures forall r :: r in f.runners && r != moved ==> RunnerInv(q, r, f.runners[r])
  {
    forall r | r in f.runners && r != moved
      ensures RunnerInv(q, r, f.runners[r])
    {
      RunnerUnmoved(f.profile, q, r, f.runners[r]);
    }
  }

  lemma PutKeepsInv(f: Fleet, q: Lease.Profile, r: RunId, runner: Runner)
    requires Lease.Inv(q) && OneCallEach(q) && RunnerInv(q, r, runner)
    requires forall k :: k in f.runners && k != r ==> RunnerInv(q, k, f.runners[k])
    ensures Inv(Put(f, r, runner).(profile := q))
  {
  }

  /** A step that opens a call of `r`, or moves its phase, leaves every other run alone. */
  lemma OpeningLeavesOthers(p: Lease.Profile, e: Lease.Event, k: RunId)
    requires Lease.Enabled(p, e) && OwnCall(e)
    requires e.Acquire? || e.StartSucceeds? || e.StartFails? || e.BeginShutdown? || e.BeginTermination?
    ensures k != e.run ==> SameFor(p, Lease.Step(p, e), k)
    ensures e.Acquire? ==> SameFor(p, Lease.Step(p, e), k)
  {
  }

  lemma OpeningOthersUnmoved(f: Fleet, e: Lease.Event)
    requires Inv(f) && Lease.Enabled(f.profile, e) && OwnCall(e)
    requires e.Acquire? || e.StartSucceeds? || e.StartFails? || e.BeginShutdown? || e.BeginTermination?
    ensures forall r :: r in f.runners && r != e.run ==> RunnerInv(Lease.Step(f.profile, e), r, f.runners[r])
  {
    forall r | r in f.runners && r != e.run
      ensures SameFor(f.profile, Lease.Step(f.profile, e), r)
    {
      OpeningLeavesOthers(f.profile, e, r);
    }
    OthersUnmoved(f, Lease.Step(f.profile, e), e.run);
  }

  /** A run that has no process yet has no runner and no call. */
  lemma StartingIsNew(f: Fleet, r: RunId)
    requires Inv(f) && !Lease.InPhase(f.profile, r, Lease.Started)
    ensures r !in f.runners
    ensures Lease.InPhase(f.profile, r, Lease.Starting) ==> r !in f.profile.calls
  {
    assert r in f.runners ==> RunnerInv(f.profile, r, f.runners[r]);
    assert r in f.profile.calls ==> Lease.CallInv(f.profile, f.profile.calls[r]);
  }

  lemma StartKeepsInv(f: Fleet, e: Event)
    requires Inv(f) && CanHappen(f, e) && (e.Acquires? || e.StartReturns?)
    ensures Inv(Step(f, e))
  {
    var inner := if e.Acquires? then Lease.Acquire(e.run) else StartOf(e.run, e.ok);
    ProfileAdvances(f.profile, inner);
    StartingIsNew(f, e.run);
    OpeningOthersUnmoved(f, inner);
  }

  lemma ConnectKeepsInv(f: Fleet, e: Event)
    requires Inv(f) && CanHappen(f, e) && (e.Connects? || e.ConnectFails?)
    ensures Inv(Step(f, e))
  {
    assert RunnerInv(f.profile, e.run, f.runners[e.run]);
    if e.ConnectFails? {
      var inner := Lease.BeginTermination(e.run, e.run);
      ProfileAdvances(f.profile, inner);
      OpeningOthersUnmoved(f, inner);
      PutKeepsInv(f, Lease.Step(f.profile, inner), e.run, GivingUp);
    } else {
      PutKeepsInv(f, f.profile, e.run, Working(Evidence.Begin(e.timeoutMs, e.teardownMs)));
    }
  }

  lemma OwnStepKeepsLink(p: Lease.Profile, r: RunId, s: Evidence.State, e: Evidence.Event)
    requires Linked(p, r, s) && Evidence.Enabled(s, e) && OwnStep(e)
    ensures Linked(p, r, Evidence.Step(s, e))
  {
  }

  lemma RunStepKeepsInv(f: Fleet, e: Event)
    requires Inv(f) && CanHappen(f, e) && e.RunStep?
    ensures Inv(Step(f, e))
  {
    var s := f.runners[e.run].run;
    assert RunnerInv(f.profile, e.run, f.runners[e.run]);
    Evidence.StepKeepsInv(s, e.step);
    OwnStepKeepsLink(f.profile, e.run, s, e.step);
    PutKeepsInv(f, f.profile, e.run, Working(Evidence.Step(s, e.step)));
  }

  lemma ShutdownBeginsKeepsInv(f: Fleet, e: Event)
    requires Inv(f) && CanHappen(f, e) && e.ShutdownBegins?
    ensures Inv(Step(f, e))
  {
    var s := f.runners[e.run].run;
    var inner := Lease.BeginShutdown(e.run, e.run, e.validTimeout);
    assert RunnerInv(f.profile, e.run, f.runners[e.run]);
    Evidence.StepKeepsInv(s, Evidence.ShutdownStarts);
    ProfileAdvances(f.profile, inner);
    OpeningOthersUnmoved(f, inner);
    PutKeepsInv(f, Lease.Step(f.profile, inner), e.run, Working(Evidence.Step(s, Evidence.ShutdownStarts)));
  }

  lemma ShutdownEndsKeepsInv(f: Fleet, e: Event)
    requires Inv(f) && CanHappen(f, e) && e.ShutdownEnds?
    ensures Inv(Step(f, e))
  {
    var s := f.runners[e.run].run;
    var settles := Evidence.ShutdownSettles(f.profile.calls[e.run].stage.ok);
    assert RunnerInv(f.profile, e.run, f.runners[e.run]);
    Evidence.StepKeepsInv(s, settles);
    PutKeepsInv(f, f.profile, e.run, Working(Evidence.Step(s, settles)));
  }

  lemma ProfileStepKeepsInv(f: Fleet, e: Event)
    requires Inv(f) && CanHappen(f, e) && e.ProfileStep?
    ensures Inv(Step(f, e))
  {
    ProfileAdvances(f.profile, e.inner);
    SessionStepKeeps(f.profile, e.inner);
    var q := Lease.Step(f.profile, e.inner);
    forall r | r in f.runners
      ensures RunnerInv(q, r, f.runners[r])
    {
      RunnerUnmoved(f.profile, q, r, f.runners[r]);
    }
  }

  lemma StepKeepsInv(f: Fleet, e: Event)
    requires Inv(f) && CanHappen(f, e)
    ensures Inv(Step(f, e))
  {
    match e {
      case Acquires(_) => StartKeepsInv(f, e);
      case StartReturns(_, _) => StartKeepsInv(f, e);
      case Connects(_, _, _) => ConnectKeepsInv(f, e);
      case ConnectFails(_) => ConnectKeepsInv(f, e);
      case RunStep(_, _) => RunStepKeepsInv(f, e);
      case ShutdownBegins(_, _) => ShutdownBeginsKeepsInv(f, e);
      case ShutdownEnds(_) => ShutdownEndsKeepsInv(f, e);
      case ProfileStep(_) => ProfileStepKeepsInv(f, e);
    }
  }

  lemma {:induction false} RunKeepsInv(f: Fleet, events: seq<Event>)
    requires Inv(f) && ValidRun(f, events)
    ensures Inv(Run(f, events))
    decreases |events|
  {
    if events != [] {
      StepKeepsInv(f, events[0]);
      RunKeepsInv(Step(f, events[0]), events[1..]);
    }
  }

  // ---------------------------------------------------------------- what the runners guarantee

  /** The memoized shutdown always finds its session's one call unused. */
  lemma ShutdownIsNeverBlocked(f: Fleet, r: RunId, validTimeout: bool)
    requires Inv(f) && IsWorking(f, r) && Evidence.Enabled(f.runners[r].run, Evidence.ShutdownStarts)
    ensures CanHappen(f, ShutdownBegins(r, validTimeout))
  {
    assert RunnerInv(f.profile, r, f.runners[r]);
  }

  /**
    * Over every run of any number of runners: no session's releases ever overlap, so at most one
    * owned browser runs, and it belongs to the run the lease names.
    */
  lemma RunnersShareOneBrowser(events: seq<Event>)
    requires ValidRun(IDLE, events)
    ensures var p := Run(IDLE, events).profile;
            && !Lease.Overlaps(p)
            && (forall r :: r in p.alive ==> p.lease == Some(r))
            && |p.alive| <= 1
  {
    RunKeepsInv(IDLE, events);
    OneCallNeverOverlaps(Run(IDLE, events).profile);
    Lease.InvMeansOneBrowser(Run(IDLE, events).profile);
  }

  /** Evidence is removed only of a run whose browser is dead and whose lease was released. */
  lemma EvidenceRemovedMeansReleased(events: seq<Event>, r: RunId)
    requires ValidRun(IDLE, events) && IsWorking(Run(IDLE, events), r)
    requires Run(IDLE, events).runners[r].run.scratchRemoved
    ensures var p := Run(IDLE, events).profile;
            r in p.released && r !in p.alive && p.lease != Some(r)
  {
    RunKeepsInv(IDLE, events);
    var f := Run(IDLE, events);
    assert RunnerInv(f.profile, r, f.runners[r]);
    assert Lease.CallInv(f.profile, f.profile.calls[r]);
    assert Lease.ReleasedInv(f.profile, r);
  }

  /** A run's shutdown succeeds exactly when its session's call did, which leaves browser and lease behind. */
  lemma ShutdownEndsAsItsCall(f: Fleet, r: RunId)
    requires Inv(f) && CanHappen(f, ShutdownEnds(r))
    ensures var t := Step(f, ShutdownEnds(r));
            && IsWorking(t, r)
            && (t.runners[r].run.shutdown == Evidence.Succeeded <==> f.profile.calls[r].stage == Lease.Done(true))
            && (t.runners[r].run.shutdown == Evidence.Succeeded ==> r in t.profile.released && r !in t.profile.alive)
  {
    assert Lease.CallInv(f.profile, f.profile.calls[r]);
  }

  /** A call that is done can always be handed to the run that waits for it. */
  lemma DoneCallIsHandedOver(f: Fleet, r: RunId)
    requires Inv(f) && IsWorking(f, r) && f.runners[r].run.shutdown == Evidence.Started
    ensures r in f.profile.calls
    ensures f.profile.calls[r].stage.Done? ==> CanHappen(f, ShutdownEnds(r))
  {
    assert RunnerInv(f.profile, r, f.runners[r]);
  }

  /** A runner that cannot connect terminates its session. */
  lemma FailedConnectTerminates(f: Fleet, r: RunId)
    requires Inv(f) && IsConnecting(f, r)
    ensures CanHappen(f, ConnectFails(r))
    ensures var t := Step(f, ConnectFails(r));
            r in t.profile.calls && t.profile.calls[r] == Lease.Call(r, Lease.Terminating(false))
  {
    assert RunnerInv(f.profile, r, f.runners[r]);
  }

  /** A runner that connects begins its run under the bounds it was given. */
  lemma ConnectedRunBegins(f: Fleet, r: RunId, timeoutMs: nat, teardownMs: nat)
    requires IsConnecting(f, r)
    ensures var t := Step(f, Connects(r, timeoutMs, teardownMs));
            && IsWorking(t, r) && t.profile == f.profile
            && t.runners[r].run.timeoutMs == timeoutMs && t.runners[r].run.teardownMs == teardownMs
            && t.runners[r].run.task == Evidence.TaskRunning && t.runners[r].run.now == 0
  {
  }
}
