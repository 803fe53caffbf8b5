/**
  * The settle rules of a dashboard resource (gui/src/client-resource-policy.ts): which
  * generation may commit, what the screen keeps, and how a failure looks.
  */
module ResourcePolicy {
  import opened Options

  /** What a loader produces. Nothing here looks inside it. */
  type Payload(==, !new)

  /** The data slot. `Null` is also what an owner abort makes the race resolve to. */
  datatype Data = Undefined | Null | Loaded(payload: Payload)

  datatype Failure =
    | UndefinedReason
    | LoadFailed
    | TimedOut(deadlineMs: int)
    | Thrown(reason: Payload)

  datatype Snapshot = Snapshot(
    data: Data,
    error: Option<Failure>,
    loading: bool,
    refreshing: bool,
    hasSucceeded: bool,
    lastAttemptOk: bool)

  datatype Identity = Identity(attemptGeneration: nat, storeGeneration: nat, aborted: bool, timedOut: bool)

  datatype Outcome = Fulfilled(data: Data) | Rejected(error: Failure)

  datatype Commit = Ignore | Success(snapshot: Snapshot) | Failed(snapshot: Snapshot)

  const DEFAULT_REQUEST_DEADLINE_MS := 30000

  const EMPTY := Snapshot(Undefined, None, false, false, false, false)

  predicate ShouldSkipQuietFetch(hasInflight: bool, replace: bool) {
    hasInflight && !replace
  }

  predicate ShowsBlockingLoad(data: Data, forceLoading: bool) {
    data == Undefined || forceLoading
  }

  function InFlight(previous: Snapshot, forceLoading: bool): (r: Snapshot)
    ensures r.refreshing && r.data == previous.data && r.hasSucceeded == previous.hasSucceeded
  {
    previous.(
      loading := if ShowsBlockingLoad(previous.data, forceLoading) then true else previous.loading,
      refreshing := true)
  }

  function NormalizeLoadError(error: Failure): (r: Failure)
    ensures r != UndefinedReason
  {
    if error == UndefinedReason then LoadFailed else error
  }

  function SuccessSnapshot(data: Data): Snapshot {
    Snapshot(data, None, false, false, true, true)
  }

  function FailureSnapshot(previous: Snapshot, error: Failure): Snapshot {
    previous.(
      error := Some(NormalizeLoadError(error)),
      loading := false,
      refreshing := false,
      lastAttemptOk := false)
  }

  /** Decides what one settled race does to the snapshot; a failure never touches the data. */
  function CommitFetch(identity: Identity, outcome: Outcome, previous: Snapshot): (r: Commit)
    ensures r.Success? ==> outcome == Fulfilled(r.snapshot.data) && r.snapshot.hasSucceeded
    ensures r.Success? ==> identity.attemptGeneration == identity.storeGeneration && !identity.aborted
    ensures r.Failed? ==> r.snapshot.data == previous.data && r.snapshot.hasSucceeded == previous.hasSucceeded
    ensures !r.Ignore? ==> !r.snapshot.refreshing && !r.snapshot.loading
  {
    match outcome
    case Fulfilled(data) =>
      if identity.attemptGeneration != identity.storeGeneration || identity.aborted then Ignore
      else Success(SuccessSnapshot(data))
    case Rejected(error) =>
      if identity.attemptGeneration != identity.storeGeneration then Ignore
      else if identity.aborted && !identity.timedOut then Ignore
      else Failed(FailureSnapshot(previous, error))
  }
}
