/**
  * The lease on the browser automation profile and the life of the browser each run starts
  * under it (scripts/evidence-browser-runtime.ts). Any number of runs share one lease file, and
  * a started session may be shut down or terminated any number of times, also while an earlier
  * call is still at work: every call goes through its own marker read and unlink. A wait or a
  * forced termination that succeeds means the process is dead, and a start that fails means
  * none is running.
  */
module BrowserLease {
  import opened Options

  type RunId = nat
  type CallId = nat

  datatype RunPhase =
    | Starting      // lease file written, process not started
    | Started
    | StartFailed
    | Refused       // another run held the lease

  /** One call of `shutdown` or `terminateBeforeCdp`; a `failing` one rethrows once it has released. */
  datatype Stage =
    | Closing                        // asked the browser to close
    | Waiting                        // close acknowledged, waiting for the exit or the grace timer
    | Terminating(failing: bool)     // forced termination in flight
    | KnownDead(failing: bool)       // about to call `release`
    | ReadingMarker(failing: bool)   // `release` is reading the lease file
    | Unlinking(failing: bool)       // the marker named this run, the unlink is in flight
    | Removed(failing: bool)         // the unlink succeeded, `released` not yet set
    | Done(ok: bool)

  datatype Call = Call(run: RunId, stage: Stage)

  /**
    * The lease file names its owner. `alive` are the owned browser processes that run,
    * `released` the leases whose own flag is set, and `gone` the runs whose file was removed.
    */
  datatype Profile = Profile(
    lease: Option<RunId>,
    alive: set<RunId>,
    runs: map<RunId, RunPhase>,
    calls: map<CallId, Call>,
    released: set<RunId>,
    gone: set<RunId>)

  const UNUSED := Profile(None, {}, map[], map[], {}, {})

  datatype Event =
    | Acquire(run: RunId)
    | StartSucceeds(run: RunId)
    | StartFails(run: RunId, call: CallId)
    | ProcessDies(run: RunId)
    | BeginShutdown(run: RunId, call: CallId, validTimeout: bool)
    | BeginTermination(run: RunId, call: CallId)
    | CloseAnswered(call: CallId, ok: bool)
    | ExitSeen(call: CallId)
    | WaitFails(call: CallId)
    | GraceTimer(call: CallId)
    | TerminationAnswered(call: CallId, ok: bool)
    | ReleaseBegins(call: CallId)
    | MarkerRead(call: CallId, ok: bool)
    | Unlinked(call: CallId, ok: bool)
    | ReleaseEnds(call: CallId)

  predicate InPhase(p: Profile, run: RunId, phase: RunPhase) {
    run in p.runs && p.runs[run] == phase
  }

  predicate AtStage(p: Profile, call: CallId, stage: Stage) {
    call in p.calls && p.calls[call].stage == stage
  }

  predicate Enabled(p: Profile, e: Event) {
    match e
    case Acquire(r) => r !in p.runs
    case StartSucceeds(r) => InPhase(p, r, Starting)
    case StartFails(r, c) => InPhase(p, r, Starting) && c !in p.calls
    case ProcessDies(r) => r in p.alive
    case BeginShutdown(r, c, _) => InPhase(p, r, Started) && c !in p.calls
    case BeginTermination(r, c) => InPhase(p, r, Started) && c !in p.calls
    case CloseAnswered(c, _) => AtStage(p, c, Closing)
    case ExitSeen(c) => AtStage(p, c, Waiting) && p.calls[c].run !in p.alive
    case WaitFails(c) => AtStage(p, c, Waiting)
    case GraceTimer(c) => AtStage(p, c, Waiting)
    case TerminationAnswered(c, _) => c in p.calls && p.calls[c].stage.Terminating?
    case ReleaseBegins(c) => c in p.calls && p.calls[c].stage.KnownDead?
    case MarkerRead(c, _) => c in p.calls && p.calls[c].stage.ReadingMarker?
    case Unlinked(c, _) => c in p.calls && p.calls[c].stage.Unlinking?
    case ReleaseEnds(c) => c in p.calls && p.calls[c].stage.Removed?
  }

  function To(p: Profile, call: CallId, stage: Stage): Profile
    requires call in p.calls
  {
    p.(calls := p.calls[call := p.calls[call].(stage := stage)])
  }

  function Begin(p: Profile, run: RunId, call: CallId, stage: Stage): Profile {
    p.(calls := p.calls[call := Call(run, stage)])
  }

  /** Unlinking removes whatever file is there; with none there it fails. */
  function Unlink(p: Profile, call: CallId, ok: bool): Profile
    requires call in p.calls && p.calls[call].stage.Unlinking?
  {
    if ok && p.lease.Some? then
      To(p, call, Removed(p.calls[call].stage.failing)).(lease := None, gone := p.gone + {p.lease.value})
    else To(p, call, Done(false))
  }

  function Step(p: Profile, e: Event): Profile
    requires Enabled(p, e)
  {
    match e
    case Acquire(r) =>
      if p.lease.None? then p.(lease := Some(r), runs := p.runs[r := Starting])
      else p.(runs := p.runs[r := Refused])
    case StartSucceeds(r) => p.(runs := p.runs[r := Started], alive := p.alive + {r})
    case StartFails(r, c) => Begin(p.(runs := p.runs[r := StartFailed]), r, c, KnownDead(true))
    case ProcessDies(r) => p.(alive := p.alive - {r})
    case BeginShutdown(r, c, validTimeout) => Begin(p, r, c, if validTimeout then Closing else Done(false))
    case BeginTermination(r, c) => Begin(p, r, c, Terminating(false))
    case CloseAnswered(c, ok) => To(p, c, if ok then Waiting else Terminating(true))
    case ExitSeen(c) => To(p, c, KnownDead(false))
    case WaitFails(c) => To(p, c, Done(false))
    case GraceTimer(c) => To(p, c, Terminating(false))
    case TerminationAnswered(c, ok) =>
      if ok then To(p, c, KnownDead(p.calls[c].stage.failing)).(alive := p.alive - {p.calls[c].run})
      else To(p, c, Done(false))
    case ReleaseBegins(c) =>
      var failing := p.calls[c].stage.failing;
      To(p, c, if p.calls[c].run in p.released then Done(!failing) else ReadingMarker(failing))
    case MarkerRead(c, ok) =>
      To(p, c, if ok && p.lease == Some(p.calls[c].run) then Unlinking(p.calls[c].stage.failing) else Done(false))
    case Unlinked(c, ok) => Unlink(p, c, ok)
    case ReleaseEnds(c) => To(p, c, Done(!p.calls[c].stage.failing)).(released := p.released + {p.calls[c].run})
  }

  predicate ValidRun(p: Profile, events: seq<Event>)
    decreases |events|
  {
    events != [] ==> Enabled(p, events[0]) && ValidRun(Step(p, events[0]), events[1..])
  }

  function Run(p: Profile, events: seq<Event>): Profile
    requires ValidRun(p, events)
    decreases |events|
  {
    if events == [] then p else Run(Step(p, events[0]), events[1..])
  }

  // ---------------------------------------------------------------- what every step keeps

  /** The run wrote the lease file and nobody has removed that file. */
  predicate Holds(p: Profile, r: RunId) {
    r in p.runs && !p.runs[r].Refused? && r !in p.gone
  }

  /** The lease file names exactly the run that holds it. */
  ghost predicate LeaseInv(p: Profile) {
    && (p.lease.Some? ==> Holds(p, p.lease.value))
    && (forall r: RunId :: Holds(p, r) ==> p.lease == Some(r))
  }

  /** The stages in which the process is known to be dead. */
  predicate Buried(stage: Stage) {
    stage.KnownDead? || stage.ReadingMarker? || stage.Unlinking? || stage.Removed? || stage == Done(true)
  }

  ghost predicate CallInv(p: Profile, call: Call) {
    && (InPhase(p, call.run, Started) || InPhase(p, call.run, StartFailed))
    && (Buried(call.stage) ==> call.run !in p.alive)
    && (call.stage.Unlinking? ==> p.lease == Some(call.run) || call.run in p.gone)
    && (call.stage.Removed? ==> call.run in p.gone)
    && (call.stage == Done(true) ==> call.run in p.released)
  }

  /** A lease whose flag is set had its file removed, and its process is dead. */
  ghost predicate ReleasedInv(p: Profile, r: RunId) {
    r in p.gone && r !in p.alive && (InPhase(p, r, Started) || InPhase(p, r, StartFailed))
  }

  /** Holds in every run, however often and however concurrently sessions are shut down. */
  ghost predicate BaseInv(p: Profile) {
    && LeaseInv(p)
    && (forall r :: r in p.gone ==> r in p.runs)
    && (forall r :: r in p.alive ==> InPhase(p, r, Started))
    && (forall c :: c in p.calls ==> CallInv(p, p.calls[c]))
    && (forall r :: r in p.released ==> ReleasedInv(p, r))
  }

  /** The steps of a call, as opposed to those of runs and processes. */
  predicate IsCallStep(e: Event) {
    !e.Acquire? && !e.StartSucceeds? && !e.StartFails? && !e.ProcessDies?
  }

  lemma RunStepKeepsLeaseInv(p: Profile, e: Event)
    requires LeaseInv(p) && (forall r :: r in p.gone ==> r in p.runs) && Enabled(p, e)
    ensures LeaseInv(Step(p, e))
  {
  }

  lemma RunStepKeepsBaseInv(p: Profile, e: Event)
    requires BaseInv(p) && Enabled(p, e) && !IsCallStep(e)
    ensures BaseInv(Step(p, e))
  {
    RunStepKeepsLeaseInv(p, e);
    var q := Step(p, e);
    forall c | c in q.calls
      ensures CallInv(q, q.calls[c])
    {
      assert c in p.calls ==> CallInv(p, p.calls[c]);
    }
    forall r | r in q.released
      ensures ReleasedInv(q, r)
    {
      assert ReleasedInv(p, r);
    }
  }

  lemma CallStepKeepsCallInv(p: Profile, e: Event, c: CallId)
    requires BaseInv(p) && Enabled(p, e) && IsCallStep(e) && c in Step(p, e).calls
    ensures CallInv(Step(p, e), Step(p, e).calls[c])
  {
    assert c in p.calls ==> CallInv(p, p.calls[c]);
  }

  lemma CallStepKeepsBaseInv(p: Profile, e: Event)
    requires BaseInv(p) && Enabled(p, e) && IsCallStep(e)
    ensures BaseInv(Step(p, e))
  {
    RunStepKeepsLeaseInv(p, e);
    var q := Step(p, e);
    forall c | c in q.calls
      ensures CallInv(q, q.calls[c])
    {
      CallStepKeepsCallInv(p, e, c);
    }
    forall r | r in q.released
      ensures ReleasedInv(q, r)
    {
      assert r in p.released ==> ReleasedInv(p, r);
      if r !in p.released {
        assert CallInv(p, p.calls[e.call]);
      }
    }
  }

  lemma StepKeepsBaseInv(p: Profile, e: Event)
    requires BaseInv(p) && Enabled(p, e)
    ensures BaseInv(Step(p, e))
    ensures p.released <= Step(p, e).released
  {
    if IsCallStep(e) {
      CallStepKeepsBaseInv(p, e);
    } else {
      RunStepKeepsBaseInv(p, e);
    }
  }

  /** Over every run: a released session never owns a process again. */
  lemma {:induction false} ReleasedStaysDead(p: Profile, events: seq<Event>, run: RunId)
    requires BaseInv(p) && ValidRun(p, events) && run in p.released
    ensures run in Run(p, events).released && run !in Run(p, events).alive
    decreases |events|
  {
    if events == [] {
      assert ReleasedInv(p, run);
    } else {
      StepKeepsBaseInv(p, events[0]);
      ReleasedStaysDead(Step(p, events[0]), events[1..], run);
    }
  }

  // ---------------------------------------------------------------- overlapping releases

  /** Two calls of one session have both read its marker, and neither unlink is through. */
  predicate Overlap(p: Profile, c: CallId, d: CallId) {
    && c in p.calls && d in p.calls && c != d && p.calls[c].run == p.calls[d].run
    && p.calls[c].stage.Unlinking? && p.calls[d].stage.Unlinking?
  }

  ghost predicate Overlaps(p: Profile) {
    exists c: CallId, d: CallId :: Overlap(p, c, d)
  }

  /** No state before the last one has overlapping releases. */
  ghost predicate NeverOverlapped(p: Profile, events: seq<Event>)
    requires ValidRun(p, events)
    decreases |events|
  {
    events != [] ==> !Overlaps(p) && NeverOverlapped(Step(p, events[0]), events[1..])
  }

  /** An unlink in flight is aimed at its own file, and a file is removed only after its process died. */
  ghost predicate SafeInv(p: Profile) {
    && (forall c :: c in p.calls && p.calls[c].stage.Unlinking? ==> p.calls[c].run !in p.gone)
    && (forall r :: r in p.gone ==> r !in p.alive && !InPhase(p, r, Starting))
  }

  ghost predicate Inv(p: Profile) {
    BaseInv(p) && SafeInv(p)
  }

  lemma UnlinkKeepsSafe(p: Profile, c: CallId, ok: bool)
    requires Inv(p) && !Overlaps(p) && Enabled(p, Unlinked(c, ok))
    ensures SafeInv(Step(p, Unlinked(c, ok)))
    ensures p.lease == Some(p.calls[c].run) && p.calls[c].run !in p.alive
  {
    assert CallInv(p, p.calls[c]);
    var q := Step(p, Unlinked(c, ok));
    forall d | d in q.calls && q.calls[d].stage.Unlinking?
      ensures q.calls[d].run !in q.gone
    {
      assert CallInv(p, p.calls[d]);
      assert !Overlap(p, c, d);
    }
  }

  lemma OtherCallStepKeepsSafe(p: Profile, e: Event)
    requires Inv(p) && Enabled(p, e) && !e.Unlinked? && IsCallStep(e)
    ensures SafeInv(Step(p, e))
  {
    assert e.MarkerRead? ==> CallInv(p, p.calls[e.call]);
  }

  lemma RunStepKeepsSafe(p: Profile, e: Event)
    requires Inv(p) && Enabled(p, e) && !IsCallStep(e)
    ensures SafeInv(Step(p, e))
  {
  }

  lemma StepKeepsInv(p: Profile, e: Event)
    requires Inv(p) && !Overlaps(p) && Enabled(p, e)
    ensures Inv(Step(p, e))
  {
    StepKeepsBaseInv(p, e);
    if e.Unlinked? {
      UnlinkKeepsSafe(p, e.call, e.ok);
    } else if IsCallStep(e) {
      OtherCallStepKeepsSafe(p, e);
    } else {
      RunStepKeepsSafe(p, e);
    }
  }

  lemma {:induction false} RunKeepsInv(p: Profile, events: seq<Event>)
    requires Inv(p) && ValidRun(p, events) && NeverOverlapped(p, events)
    ensures Inv(Run(p, events))
    decreases |events|
  {
    if events != [] {
      StepKeepsInv(p, events[0]);
      RunKeepsInv(Step(p, events[0]), events[1..]);
    }
  }

  lemma InvMeansOneBrowser(p: Profile)
    requires Inv(p)
    ensures forall r :: r in p.alive ==> p.lease == Some(r)
    ensures |p.alive| <= 1
  {
    forall r | r in p.alive
      ensures p.lease == Some(r)
    {
      assert Holds(p, r);
    }
    if p.alive != {} {
      var r :| r in p.alive;
      assert p.alive == {r};
    }
  }

  /**
    * Over any number of concurrent runs, any number of shutdowns and terminations of each, and
    * any failures: while no session has two releases past their marker reads, a browser that
    * runs belongs to the run the lease names, so at most one owned browser runs.
    */
  lemma AtMostOneBrowser(events: seq<Event>)
    requires ValidRun(UNUSED, events) && NeverOverlapped(UNUSED, events)
    ensures var p := Run(UNUSED, events);
            && (forall r :: r in p.alive ==> p.lease == Some(r))
            && |p.alive| <= 1
  {
    RunKeepsInv(UNUSED, events);
    InvMeansOneBrowser(Run(UNUSED, events));
  }

  /** A lease leaves the disk only by an unlink of its owner's, after its process is dead. */
  lemma RemovedOnlyWhenDead(p: Profile, e: Event)
    requires Inv(p) && !Overlaps(p) && Enabled(p, e)
    requires p.lease.Some? && Step(p, e).lease != p.lease
    ensures e.Unlinked? && p.calls[e.call].run == p.lease.value && p.lease.value !in p.alive
    ensures Step(p, e).lease.None?
  {
    if e.Unlinked? {
      UnlinkKeepsSafe(p, e.call, e.ok);
    }
  }

  // ---------------------------------------------------------------- exactly the overlap is unsafe

  lemma RunOfTwo(p: Profile, a: Event, rest: seq<Event>)
    requires Enabled(p, a) && ValidRun(Step(p, a), rest)
    ensures ValidRun(p, [a] + rest) && Run(p, [a] + rest) == Run(Step(p, a), rest)
  {
    assert ([a] + rest)[0] == a && ([a] + rest)[1..] == rest;
  }

  lemma RunOfLast(p: Profile, e: Event)
    requires Enabled(p, e)
    ensures ValidRun(p, [e]) && Run(p, [e]) == Step(p, e)
  {
    assert [e][1..] == [];
  }

  /** No call gets past its marker read during these events. */
  predicate NoMarkerRead(events: seq<Event>) {
    forall e :: e in events ==> !e.MarkerRead?
  }

  ghost predicate TwoBrowsers(p: Profile) {
    exists r, t :: r in p.alive && t in p.alive && r != t
  }

  /** Without a marker read no overlap arises, so no second browser starts. */
  lemma {:induction false} NoOverlapStaysSafe(p: Profile, tail: seq<Event>)
    requires Inv(p) && !Overlaps(p) && ValidRun(p, tail) && NoMarkerRead(tail)
    ensures !TwoBrowsers(Run(p, tail))
    decreases |tail|
  {
    if tail == [] {
      InvMeansOneBrowser(p);
    } else {
      StepKeepsInv(p, tail[0]);
      NoNewOverlap(p, tail[0]);
      NoOverlapStaysSafe(Step(p, tail[0]), tail[1..]);
    }
  }

  lemma NoNewOverlap(p: Profile, e: Event)
    requires !Overlaps(p) && Enabled(p, e) && !e.MarkerRead?
    ensures !Overlaps(Step(p, e))
  {
    var q := Step(p, e);
    forall c: CallId, d: CallId
      ensures !Overlap(q, c, d)
    {
      assert !Overlap(p, c, d);
    }
  }

  lemma {:induction false} RunOfConcat(p: Profile, a: seq<Event>, b: seq<Event>)
    requires ValidRun(p, a) && ValidRun(Run(p, a), b)
    ensures ValidRun(p, a + b) && Run(p, a + b) == Run(Run(p, a), b)
    decreases |a|
  {
    if a == [] {
      assert a + b == b;
    } else {
      assert (a + b)[0] == a[0] && (a + b)[1..] == a[1..] + b;
      RunOfConcat(Step(p, a[0]), a[1..], b);
    }
  }

  /** A new run takes the free lease and starts its browser. */
  function StartEvents(r: RunId): seq<Event> {
    [Acquire(r), StartSucceeds(r)]
  }

  /** A termination that succeeds, up to the unlink of its release. */
  function ReleaseEvents(r: RunId, c: CallId): seq<Event> {
    [BeginTermination(r, c), TerminationAnswered(c, true), ReleaseBegins(c), MarkerRead(c, true)]
  }

  lemma StartsOnFreeLease(p: Profile, r: RunId)
    requires p.lease.None? && r !in p.runs
    ensures ValidRun(p, StartEvents(r))
    ensures Run(p, StartEvents(r)) == p.(lease := Some(r), runs := p.runs[r := Started], alive := p.alive + {r})
  {
    var taken := Step(p, Acquire(r));
    RunOfLast(taken, StartSucceeds(r));
    RunOfTwo(p, Acquire(r), [StartSucceeds(r)]);
    assert p.runs[r := Starting][r := Started] == p.runs[r := Started];
  }

  lemma ReleaseReachesUnlink(p: Profile, r: RunId, c: CallId)
    requires InPhase(p, r, Started) && p.lease == Some(r) && r !in p.released && c !in p.calls
    ensures ValidRun(p, ReleaseEvents(r, c))
    ensures Run(p, ReleaseEvents(r, c))
         == p.(alive := p.alive - {r}, calls := p.calls[c := Call(r, Unlinking(false))])
  {
    var p1 := Step(p, BeginTermination(r, c));
    var p2 := Step(p1, TerminationAnswered(c, true));
    var p3 := Step(p2, ReleaseBegins(c));
    RunOfLast(p3, MarkerRead(c, true));
    RunOfTwo(p2, ReleaseBegins(c), [MarkerRead(c, true)]);
    RunOfTwo(p1, TerminationAnswered(c, true), [ReleaseBegins(c), MarkerRead(c, true)]);
    RunOfTwo(p, BeginTermination(r, c), [TerminationAnswered(c, true), ReleaseBegins(c), MarkerRead(c, true)]);
    assert Step(p3, MarkerRead(c, true)).calls == p.calls[c := Call(r, Unlinking(false))];
  }

  /** One unlink, and a new run on the lease it freed. */
  function StealEvents(c: CallId, r: RunId): seq<Event> {
    [Unlinked(c, true)] + StartEvents(r)
  }

  lemma UnlinkLetsStart(p: Profile, c: CallId, r: RunId)
    requires c in p.calls && p.calls[c].stage.Unlinking? && p.lease.Some? && r !in p.runs
    ensures ValidRun(p, StealEvents(c, r))
    ensures var q := Run(p, StealEvents(c, r));
            && q.alive == p.alive + {r} && q.lease == Some(r) && q.runs == p.runs[r := Started]
            && q.calls.Keys == p.calls.Keys && forall d :: d in p.calls && d != c ==> q.calls[d] == p.calls[d]
  {
    var freed := Step(p, Unlinked(c, true));
    StartsOnFreeLease(freed, r);
    RunOfTwo(p, Unlinked(c, true), StartEvents(r));
  }

  /** From any overlap, two unlinks free the lease twice and two browsers run. */
  lemma OverlapBreaks(p: Profile, c: CallId, d: CallId, r: RunId, t: RunId)
    requires Overlap(p, c, d) && p.lease.Some? && r !in p.runs && t !in p.runs && r != t
    ensures ValidRun(p, StealEvents(c, r) + StealEvents(d, t))
    ensures TwoBrowsers(Run(p, StealEvents(c, r) + StealEvents(d, t)))
  {
    UnlinkLetsStart(p, c, r);
    var q := Run(p, StealEvents(c, r));
    UnlinkLetsStart(q, d, t);
    RunOfConcat(p, StealEvents(c, r), StealEvents(d, t));
    var last := Run(q, StealEvents(d, t));
    assert r in last.alive && t in last.alive;
  }

  lemma {:induction false} BoundOf(s: set<nat>) returns (bound: nat)
    ensures forall x :: x in s ==> x < bound
  {
    if s == {} {
      bound := 0;
    } else {
      var x :| x in s;
      var below := BoundOf(s - {x});
      bound := if below > x then below else x + 1;
      forall y | y in s
        ensures y < bound
      {
        assert y == x || y in s - {x};
      }
    }
  }

  /**
    * Where the releases of a session overlap, and only there, two owned browsers can come to run
    * without any further call reading its marker.
    */
  lemma OverlapIsExact(p: Profile)
    requires Inv(p)
    ensures Overlaps(p) <==>
            exists tail :: ValidRun(p, tail) && NoMarkerRead(tail) && TwoBrowsers(Run(p, tail))
  {
    if Overlaps(p) {
      var c: CallId, d: CallId :| Overlap(p, c, d);
      assert CallInv(p, p.calls[c]);
      var r := BoundOf(p.runs.Keys);
      OverlapBreaks(p, c, d, r, r + 1);
      assert NoMarkerRead(StealEvents(c, r) + StealEvents(d, r + 1));
    } else if tail :| ValidRun(p, tail) && NoMarkerRead(tail) && TwoBrowsers(Run(p, tail)) {
      NoOverlapStaysSafe(p, tail);
      assert false;
    }
  }

  /** The same of every state a run reaches, up to and including its first overlap. */
  lemma OverlapIsExactOverRuns(events: seq<Event>)
    requires ValidRun(UNUSED, events) && NeverOverlapped(UNUSED, events)
    ensures var p := Run(UNUSED, events);
            Overlaps(p) <==>
            exists tail :: ValidRun(p, tail) && NoMarkerRead(tail) && TwoBrowsers(Run(p, tail))
  {
    RunKeepsInv(UNUSED, events);
    OverlapIsExact(Run(UNUSED, events));
  }

  /** One session terminated twice at once, its two unlinks around the start of a second run. */
  function OverlappingReleases(): seq<Event> {
    StartEvents(1) + (ReleaseEvents(1, 1) + (ReleaseEvents(1, 2) + (StealEvents(1, 2) + StealEvents(2, 3))))
  }

  lemma OverlappingReleasesBreak()
    ensures ValidRun(UNUSED, OverlappingReleases())
    ensures TwoBrowsers(Run(UNUSED, OverlappingReleases()))
  {
    StartsOnFreeLease(UNUSED, 1);
    var p1 := Run(UNUSED, StartEvents(1));
    ReleaseReachesUnlink(p1, 1, 1);
    var p2 := Run(p1, ReleaseEvents(1, 1));
    ReleaseReachesUnlink(p2, 1, 2);
    var p3 := Run(p2, ReleaseEvents(1, 2));
    assert Overlap(p3, 1, 2);
    OverlapBreaks(p3, 1, 2, 2, 3);
    var tail := StealEvents(1, 2) + StealEvents(2, 3);
    RunOfConcat(p2, ReleaseEvents(1, 2), tail);
    RunOfConcat(p1, ReleaseEvents(1, 1), ReleaseEvents(1, 2) + tail);
    RunOfConcat(UNUSED, StartEvents(1), ReleaseEvents(1, 1) + (ReleaseEvents(1, 2) + tail));
  }

  // ---------------------------------------------------------------- one shutdown, in order

  datatype WaitOutcome = Exited | WaitRejected | GraceElapsed

  /** How the awaits of one shutdown turn out. */
  datatype Outcomes = Outcomes(validTimeout: bool, closeOk: bool, wait: WaitOutcome, terminateOk: bool)

  datatype Result = Graceful | Forced | Threw

  /** The process is known dead: its exit was seen, or a forced termination succeeded. */
  predicate DeathKnown(o: Outcomes) {
    && o.validTimeout
    && if o.closeOk then o.wait == Exited || (o.wait == GraceElapsed && o.terminateOk) else o.terminateOk
  }

  /** `shutdown` of a started session: the two flags decide about the lease in its `finally`. */
  method Shutdown(o: Outcomes) returns (result: Result, release: bool)
    ensures release <==> DeathKnown(o)
    ensures result == Graceful <==> o.validTimeout && o.closeOk && o.wait == Exited
    ensures result == Forced <==> o.validTimeout && o.closeOk && o.wait == GraceElapsed && o.terminateOk
  {
    var safeToReleaseLease, forceTerminationSucceeded := false, false;
    result := Threw;
    if o.validTimeout {
      if !o.closeOk {
        if o.terminateOk {
          forceTerminationSucceeded := true;
        }
      } else if o.wait == Exited {
        result := Graceful;
      } else if o.wait == GraceElapsed && o.terminateOk {
        forceTerminationSucceeded := true;
        result := Forced;
      }
    }
    if result != Threw {
      safeToReleaseLease := true;
    } else if forceTerminationSucceeded {
      safeToReleaseLease := true;
    }
    release := safeToReleaseLease;
  }

  /** The steps the interleaved model takes for these outcomes, the exit included. */
  function ShutdownSteps(r: RunId, c: CallId, o: Outcomes): seq<Event> {
    if !o.validTimeout then [BeginShutdown(r, c, false)]
    else if !o.closeOk then [BeginShutdown(r, c, true), CloseAnswered(c, false), TerminationAnswered(c, o.terminateOk)]
    else
      match o.wait
      case Exited => [BeginShutdown(r, c, true), CloseAnswered(c, true), ProcessDies(r), ExitSeen(c)]
      case WaitRejected => [BeginShutdown(r, c, true), CloseAnswered(c, true), WaitFails(c)]
      case GraceElapsed =>
        [BeginShutdown(r, c, true), CloseAnswered(c, true), GraceTimer(c), TerminationAnswered(c, o.terminateOk)]
  }

  /** Where these outcomes leave the call and the process. */
  ghost predicate EndsAs(q: Profile, r: RunId, c: CallId, o: Outcomes) {
    && c in q.calls && q.calls[c] == Call(r, if DeathKnown(o) then KnownDead(!o.closeOk) else Done(false))
    && (r in q.alive <==> !DeathKnown(o))
  }

  lemma FailedCloseAgrees(p: Profile, r: RunId, c: CallId, o: Outcomes)
    requires c in p.calls && p.calls[c] == Call(r, Closing) && r in p.alive && o.validTimeout && !o.closeOk
    ensures var rest := ShutdownSteps(r, c, o)[1..];
            ValidRun(p, rest) && EndsAs(Run(p, rest), r, c, o)
  {
    var last := TerminationAnswered(c, o.terminateOk);
    assert ShutdownSteps(r, c, o)[1..] == [CloseAnswered(c, false)] + [last];
    RunOfLast(Step(p, CloseAnswered(c, false)), last);
    RunOfTwo(p, CloseAnswered(c, false), [last]);
  }

  lemma FailedWaitAgrees(p: Profile, r: RunId, c: CallId, o: Outcomes)
    requires c in p.calls && p.calls[c] == Call(r, Closing) && r in p.alive
    requires o.validTimeout && o.closeOk && o.wait == WaitRejected
    ensures var rest := ShutdownSteps(r, c, o)[1..];
            ValidRun(p, rest) && EndsAs(Run(p, rest), r, c, o)
  {
    assert ShutdownSteps(r, c, o)[1..] == [CloseAnswered(c, true)] + [WaitFails(c)];
    RunOfLast(Step(p, CloseAnswered(c, true)), WaitFails(c));
    RunOfTwo(p, CloseAnswered(c, true), [WaitFails(c)]);
  }

  lemma AnsweredCloseAgrees(p: Profile, r: RunId, c: CallId, o: Outcomes)
    requires c in p.calls && p.calls[c] == Call(r, Closing) && r in p.alive
    requires o.validTimeout && o.closeOk && o.wait != WaitRejected
    ensures var rest := ShutdownSteps(r, c, o)[1..];
            ValidRun(p, rest) && EndsAs(Run(p, rest), r, c, o)
  {
    var waiting := Step(p, CloseAnswered(c, true));
    var third := if o.wait == Exited then ProcessDies(r) else GraceTimer(c);
    var last := if o.wait == Exited then ExitSeen(c) else TerminationAnswered(c, o.terminateOk);
    assert ShutdownSteps(r, c, o)[1..] == [CloseAnswered(c, true)] + ([third] + [last]);
    RunOfLast(Step(waiting, third), last);
    RunOfTwo(waiting, third, [last]);
    RunOfTwo(p, CloseAnswered(c, true), [third] + [last]);
  }

  /**
    * Sequential and interleaved agree: the call goes on to release exactly when the method says
    * so, the process is dead exactly then, and it will rethrow exactly when the close failed.
    */
  lemma ShutdownStepsAgree(p: Profile, r: RunId, c: CallId, o: Outcomes)
    requires InPhase(p, r, Started) && r in p.alive && c !in p.calls
    ensures ValidRun(p, ShutdownSteps(r, c, o))
    ensures EndsAs(Run(p, ShutdownSteps(r, c, o)), r, c, o)
  {
    if !o.validTimeout {
      RunOfLast(p, BeginShutdown(r, c, false));
    } else {
      var begun := Step(p, BeginShutdown(r, c, true));
      if !o.closeOk {
        FailedCloseAgrees(begun, r, c, o);
      } else if o.wait == WaitRejected {
        FailedWaitAgrees(begun, r, c, o);
      } else {
        AnsweredCloseAgrees(begun, r, c, o);
      }
      var rest := ShutdownSteps(r, c, o)[1..];
      RunOfTwo(p, BeginShutdown(r, c, true), rest);
      assert ShutdownSteps(r, c, o) == [BeginShutdown(r, c, true)] + rest;
    }
  }

  // ---------------------------------------------------------------- a release goes through

  /** The steps of a release that meets no failure. */
  function ReleaseSteps(c: CallId): seq<Event> {
    [ReleaseBegins(c), MarkerRead(c, true), Unlinked(c, true), ReleaseEnds(c)]
  }

  /**
    * A call that knows the process dead, on the lease that is its own: the release frees the lease
    * and sets the flag, and the call succeeds unless it has an error to rethrow.
    */
  lemma ReleaseCompletes(p: Profile, c: CallId)
    requires c in p.calls && p.calls[c].stage.KnownDead?
    requires p.lease == Some(p.calls[c].run) && p.calls[c].run !in p.released
    ensures ValidRun(p, ReleaseSteps(c))
    ensures var q := Run(p, ReleaseSteps(c));
            && AtStage(q, c, Done(!p.calls[c].stage.failing)) && q.lease.None?
            && q.released == p.released + {p.calls[c].run} && q.alive == p.alive && q.runs == p.runs
  {
    var p1 := Step(p, ReleaseBegins(c));
    var p2 := Step(p1, MarkerRead(c, true));
    var p3 := Step(p2, Unlinked(c, true));
    RunOfLast(p3, ReleaseEnds(c));
    RunOfTwo(p2, Unlinked(c, true), [ReleaseEnds(c)]);
    RunOfTwo(p1, MarkerRead(c, true), [Unlinked(c, true), ReleaseEnds(c)]);
    RunOfTwo(p, ReleaseBegins(c), [MarkerRead(c, true), Unlinked(c, true), ReleaseEnds(c)]);
  }

  /** Releasing a lease again, once its flag is set, ends at once and leaves the file to whoever has it now. */
  lemma ReleasedAgainDoesNothing(p: Profile, c: CallId)
    requires c in p.calls && p.calls[c].stage.KnownDead? && p.calls[c].run in p.released
    ensures var q := Step(p, ReleaseBegins(c));
            AtStage(q, c, Done(!p.calls[c].stage.failing)) && q == p.(calls := q.calls)
  {
  }

  /** A start that fails goes on to free its own lease, and then rethrows. */
  lemma FailedStartReleases(p: Profile, r: RunId, c: CallId)
    requires Inv(p) && InPhase(p, r, Starting) && c !in p.calls
    ensures ValidRun(p, [StartFails(r, c)] + ReleaseSteps(c))
    ensures var q := Run(p, [StartFails(r, c)] + ReleaseSteps(c));
            AtStage(q, c, Done(false)) && q.lease.None? && r in q.released && r !in q.alive && InPhase(q, r, StartFailed)
  {
    assert r in p.released ==> ReleasedInv(p, r);
    assert Holds(p, r);
    var failed := Step(p, StartFails(r, c));
    ReleaseCompletes(failed, c);
    RunOfTwo(p, StartFails(r, c), ReleaseSteps(c));
  }

  /** A shutdown that learns of the death frees the lease, and succeeds unless the close had failed. */
  lemma KnownDeathReleases(p: Profile, r: RunId, c: CallId, o: Outcomes)
    requires Inv(p) && InPhase(p, r, Started) && r in p.alive && c !in p.calls
    requires DeathKnown(o)
    ensures ValidRun(p, ShutdownSteps(r, c, o)) && ValidRun(Run(p, ShutdownSteps(r, c, o)), ReleaseSteps(c))
    ensures var q := Run(Run(p, ShutdownSteps(r, c, o)), ReleaseSteps(c));
            AtStage(q, c, Done(o.closeOk)) && q.lease.None? && r in q.released && r !in q.alive
  {
    ShutdownStepsAgree(p, r, c, o);
    var dead := Run(p, ShutdownSteps(r, c, o));
    ShutdownKeepsLease(p, ShutdownSteps(r, c, o));
    assert r in p.released ==> ReleasedInv(p, r);
    assert Holds(p, r);
    ReleaseCompletes(dead, c);
  }

  /** Steps that end no release. */
  predicate NoRelease(e: Event) {
    e.ProcessDies? || e.BeginShutdown? || e.CloseAnswered? || e.ExitSeen? || e.WaitFails? || e.GraceTimer? || e.TerminationAnswered?
  }

  lemma {:induction false} ShutdownKeepsLease(p: Profile, events: seq<Event>)
    requires ValidRun(p, events) && forall e :: e in events ==> NoRelease(e)
    ensures Run(p, events).lease == p.lease && Run(p, events).released == p.released
    decreases |events|
  {
    if events != [] {
      assert events[0] in events && forall e :: e in events[1..] ==> e in events;
      ShutdownKeepsLease(Step(p, events[0]), events[1..]);
    }
  }

  // ---------------------------------------------------------------- the objects

  /**
    * The profile root with its lease file, the `released` flag of each lease, and the calls its
    * pending promises stand for. Each method is the code between two awaits.
    */
  class AutomationProfile {
    var leaseFile: Option<RunId>
    var runs: map<RunId, RunPhase>
    var calls: map<CallId, Call>
    var released: set<RunId>
    ghost var alive: set<RunId>
    ghost var gone: set<RunId>

    ghost function Model(): Profile
      reads this
    {
      Profile(leaseFile, alive, runs, calls, released, gone)
    }

    constructor ()
      ensures Model() == UNUSED
    {
      leaseFile, runs, calls, released, alive, gone := None, map[], map[], {}, {}, {};
    }

    /** The exclusive create of the lease file. */
    method Acquire(r: RunId) returns (held: bool)
      requires r !in runs
      modifies this
      ensures Model() == Step(old(Model()), Event.Acquire(r))
      ensures held <==> old(leaseFile).None?
    {
      if leaseFile.Some? {
        runs := runs[r := Refused];
        return false;
      }
      leaseFile := Some(r);
      runs := runs[r := Starting];
      return true;
    }

    /** The process start came back; a failed one releases the lease at once. */
    method OnStart(r: RunId, c: CallId, ok: bool)
      requires InPhase(Model(), r, Starting) && c !in calls
      modifies this
      ensures Model() == Step(old(Model()), if ok then StartSucceeds(r) else StartFails(r, c))
    {
      if ok {
        runs := runs[r := Started];
        alive := alive + {r};
      } else {
        runs := runs[r := StartFailed];
        calls := calls[c := Call(r, KnownDead(true))];
      }
    }

    method BeginShutdown(r: RunId, c: CallId, validTimeout: bool)
      requires InPhase(Model(), r, Started) && c !in calls
      modifies this`calls
      ensures Model() == Step(old(Model()), Event.BeginShutdown(r, c, validTimeout))
    {
      calls := calls[c := Call(r, if validTimeout then Closing else Done(false))];
    }

    method TerminateBeforeCdp(r: RunId, c: CallId)
      requires InPhase(Model(), r, Started) && c !in calls
      modifies this`calls
      ensures Model() == Step(old(Model()), BeginTermination(r, c))
    {
      calls := calls[c := Call(r, Terminating(false))];
    }

    method OnClose(c: CallId, ok: bool)
      requires AtStage(Model(), c, Closing)
      modifies this`calls
      ensures Model() == Step(old(Model()), CloseAnswered(c, ok))
    {
      calls := calls[c := calls[c].(stage := if ok then Waiting else Terminating(true))];
    }

    method OnTermination(c: CallId, ok: bool)
      requires c in calls && calls[c].stage.Terminating?
      modifies this
      ensures Model() == Step(old(Model()), TerminationAnswered(c, ok))
    {
      var it := calls[c];
      if ok {
        alive := alive - {it.run};
        calls := calls[c := it.(stage := KnownDead(it.stage.failing))];
      } else {
        calls := calls[c := it.(stage := Done(false))];
      }
    }

    /** `release`, up to its first await: a lease whose flag is set needs nothing more. */
    method Release(c: CallId)
      requires c in calls && calls[c].stage.KnownDead?
      modifies this`calls
      ensures Model() == Step(old(Model()), ReleaseBegins(c))
    {
      var it := calls[c];
      if it.run in released {
        calls := calls[c := it.(stage := Done(!it.stage.failing))];
        return;
      }
      calls := calls[c := it.(stage := ReadingMarker(it.stage.failing))];
    }

    method OnMarker(c: CallId, ok: bool)
      requires c in calls && calls[c].stage.ReadingMarker?
      modifies this`calls
      ensures Model() == Step(old(Model()), MarkerRead(c, ok))
    {
      var it := calls[c];
      if !ok || leaseFile != Some(it.run) {
        calls := calls[c := it.(stage := Done(false))];
        return;
      }
      calls := calls[c := it.(stage := Unlinking(it.stage.failing))];
    }

    /** The unlink takes effect, on whatever file is there by then. */
    method OnUnlink(c: CallId, ok: bool)
      requires c in calls && calls[c].stage.Unlinking?
      modifies this
      ensures Model() == Step(old(Model()), Unlinked(c, ok))
    {
      var it := calls[c];
      if !ok || leaseFile.None? {
        calls := calls[c := it.(stage := Done(false))];
        return;
      }
      gone := gone + {leaseFile.value};
      leaseFile := None;
      calls := calls[c := it.(stage := Removed(it.stage.failing))];
    }

    method OnReleased(c: CallId)
      requires c in calls && calls[c].stage.Removed?
      modifies this
      ensures Model() == Step(old(Model()), ReleaseEnds(c))
    {
      var it := calls[c];
      released := released + {it.run};
      calls := calls[c := it.(stage := Done(!it.stage.failing))];
    }
  }
}
