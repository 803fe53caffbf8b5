/**
  * The values and atomic steps of one keyed resource (gui/src/client-resource.ts), and what
  * every run of those steps keeps. `ask` is split at its await: opening an attempt is part of
  * the step that asked, and "settle, then close" is a step of its own that any unsettled
  * attempt may take at any later time.
  */
module ResourceStore {
  import opened Options
  import opened ResourcePolicy
  import opened ResourceAttempts

  // ---------------------------------------------------------------- data

  /** One subscriber; `id` stands for its notify callback, the key of the watcher map. */
  datatype Watcher = Watcher(id: nat, pollMs: Option<real>, pauseWhenHidden: bool, deadlineMs: Option<int>)

  /** Which side of `Promise.race` won: the loader, or the abort listener. */
  datatype Race = LoadFulfilled(data: Data) | LoadRejected(error: Failure) | AbortWon

  /** `pulse` is the period of the running poll timer; a resource without one has no timer. */
  datatype Store = Store(
    snapshot: Snapshot,
    attempts: Attempts,
    seedDirty: bool,
    settledAt: Option<int>,
    watchers: seq<Watcher>,
    pulse: Option<real>)

  const FRESH := Store(EMPTY, NONE_YET, false, None, [], None)

  // ---------------------------------------------------------------- watchers

  /** A positive poll interval; absent and non-positive ones do not poll. */
  predicate Polls(w: Watcher) {
    w.pollMs.Some? && w.pollMs.value > 0.0
  }

  predicate OptsOut(w: Watcher) {
    Polls(w) && !w.pauseWhenHidden
  }

  predicate Watching(ws: seq<Watcher>, id: nat) {
    ws != [] && (ws[0].id == id || Watching(ws[1..], id))
  }

  /** The watcher map holds one record per subscriber. */
  predicate DistinctIds(ws: seq<Watcher>) {
    ws != [] ==> !Watching(ws[1..], ws[0].id) && DistinctIds(ws[1..])
  }

  /** Map.set: an existing id keeps its place, a new one goes last. */
  function SetWatcher(ws: seq<Watcher>, w: Watcher): seq<Watcher> {
    if ws == [] then [w]
    else if ws[0].id == w.id then [w] + ws[1..]
    else [ws[0]] + SetWatcher(ws[1..], w)
  }

  /** Map.delete: the other watchers keep their order. */
  function RemoveWatcher(ws: seq<Watcher>, id: nat): seq<Watcher> {
    if ws == [] then []
    else if ws[0].id == id then RemoveWatcher(ws[1..], id)
    else [ws[0]] + RemoveWatcher(ws[1..], id)
  }

  /** The first watcher, in joining order, that `want` accepts. */
  function FirstWatcher(ws: seq<Watcher>, want: Watcher -> bool): Option<Watcher> {
    if ws == [] then None
    else if want(ws[0]) then Some(ws[0])
    else FirstWatcher(ws[1..], want)
  }

  predicate HiddenOptOut(ws: seq<Watcher>) {
    FirstWatcher(ws, OptsOut).Some?
  }

  /** The lowest positive interval, or none when nobody polls. */
  function FastestPoll(ws: seq<Watcher>): Option<real> {
    if ws == [] then None
    else
      var last := ws[|ws| - 1];
      var lowest := FastestPoll(ws[..|ws| - 1]);
      if !Polls(last) then lowest
      else if lowest.None? then last.pollMs
      else Some(if lowest.value <= last.pollMs.value then lowest.value else last.pollMs.value)
  }

  /** Who a poll, a catch-up or a hand-over asks on behalf of. */
  function PickWatcher(ws: seq<Watcher>, hidden: bool): Option<Watcher> {
    if hidden then FirstWatcher(ws, OptsOut)
    else
      var polling := FirstWatcher(ws, Polls);
      if polling.Some? then polling else if ws == [] then None else Some(ws[0])
  }

  lemma {:induction false} SetWatcherIds(ws: seq<Watcher>, w: Watcher, id: nat)
    ensures Watching(SetWatcher(ws, w), id) <==> Watching(ws, id) || id == w.id
  {
    if ws != [] && ws[0].id != w.id {
      SetWatcherIds(ws[1..], w, id);
    }
  }

  lemma {:induction false} SetWatcherDistinct(ws: seq<Watcher>, w: Watcher)
    requires DistinctIds(ws)
    ensures DistinctIds(SetWatcher(ws, w))
  {
    if ws != [] && ws[0].id != w.id {
      SetWatcherDistinct(ws[1..], w);
      SetWatcherIds(ws[1..], w, ws[0].id);
    }
  }

  lemma {:induction false} RemoveWatcherIds(ws: seq<Watcher>, gone: nat, id: nat)
    ensures Watching(RemoveWatcher(ws, gone), id) <==> Watching(ws, id) && id != gone
  {
    if ws != [] {
      RemoveWatcherIds(ws[1..], gone, id);
    }
  }

  lemma {:induction false} RemoveWatcherDistinct(ws: seq<Watcher>, gone: nat)
    requires DistinctIds(ws)
    ensures DistinctIds(RemoveWatcher(ws, gone))
  {
    if ws != [] {
      RemoveWatcherDistinct(ws[1..], gone);
      RemoveWatcherIds(ws[1..], gone, ws[0].id);
    }
  }

  /** Joining puts the record in unchanged: in place of the subscriber's old one, or last. */
  lemma {:induction false} SetWatcherKeepsOthers(ws: seq<Watcher>, w: Watcher)
    requires DistinctIds(ws)
    ensures var r := SetWatcher(ws, w);
            if Watching(ws, w.id) then
              |r| == |ws| && forall i :: 0 <= i < |ws| ==> r[i] == if ws[i].id == w.id then w else ws[i]
            else r == ws + [w]
  {
    if ws == [] {
      assert ws + [w] == [w];
    } else if ws[0].id == w.id {
      NotWatchingMeans(ws[1..], w.id);
      forall i | 0 <= i < |ws|
        ensures SetWatcher(ws, w)[i] == if ws[i].id == w.id then w else ws[i]
      {
        assert i > 0 ==> ws[i] == ws[1..][i - 1];
      }
    } else {
      SetWatcherKeepsOthers(ws[1..], w);
      assert ws + [w] == [ws[0]] + (ws[1..] + [w]);
    }
  }

  lemma {:induction false} NotWatchingMeans(ws: seq<Watcher>, id: nat)
    ensures !Watching(ws, id) <==> forall i :: 0 <= i < |ws| ==> ws[i].id != id
  {
    if ws != [] {
      NotWatchingMeans(ws[1..], id);
      assert forall i :: 0 < i < |ws| ==> ws[i] == ws[1..][i - 1];
      assert forall i :: 0 <= i < |ws| - 1 ==> ws[1..][i] == ws[i + 1];
    }
  }

  /** Leaving takes one record out and keeps the others, unchanged and in order. */
  lemma {:induction false} RemoveWatcherKeepsOthers(ws: seq<Watcher>, id: nat)
    requires DistinctIds(ws)
    ensures var r := RemoveWatcher(ws, id);
            if Watching(ws, id) then
              exists i :: 0 <= i < |ws| && ws[i].id == id && r == ws[..i] + ws[i + 1..]
            else r == ws
  {
    if ws != [] {
      RemoveWatcherKeepsOthers(ws[1..], id);
      if ws[0].id == id {
        assert ws[..0] + ws[1..] == ws[1..];
      } else if Watching(ws[1..], id) {
        var j :| 0 <= j < |ws[1..]| && ws[1..][j].id == id && RemoveWatcher(ws[1..], id) == ws[1..][..j] + ws[1..][j + 1..];
        assert ws[j + 1].id == id;
        assert [ws[0]] + (ws[1..][..j] + ws[1..][j + 1..]) == ws[..j + 1] + ws[j + 2..];
      }
    }
  }

  lemma {:induction false} FirstWatcherFinds(ws: seq<Watcher>, want: Watcher -> bool)
    ensures var r := FirstWatcher(ws, want);
            if r.Some? then r.value in ws && want(r.value) && Watching(ws, r.value.id)
            else forall w :: w in ws ==> !want(w)
  {
    if ws != [] && !want(ws[0]) {
      FirstWatcherFinds(ws[1..], want);
      assert ws == [ws[0]] + ws[1..];
    }
  }

  /** Nobody who joined earlier would do. */
  lemma {:induction false} FirstWatcherIsFirst(ws: seq<Watcher>, want: Watcher -> bool) returns (k: nat)
    requires FirstWatcher(ws, want).Some?
    ensures k < |ws| && ws[k] == FirstWatcher(ws, want).value && want(ws[k])
    ensures forall i :: 0 <= i < k ==> !want(ws[i])
  {
    if want(ws[0]) {
      k := 0;
    } else {
      var j := FirstWatcherIsFirst(ws[1..], want);
      k := j + 1;
      forall i | 0 <= i < k
        ensures !want(ws[i])
      {
        assert i > 0 ==> ws[i] == ws[1..][i - 1];
      }
    }
  }

  /**
    * Who is asked for: on a visible page the earliest polling watcher, or the earliest of all when
    * nobody polls; on a hidden one the earliest that opted out of pausing.
    */
  ghost predicate PickedFor(ws: seq<Watcher>, hidden: bool, w: Watcher) {
    exists k :: 0 <= k < |ws| && ws[k] == w &&
      if hidden then OptsOut(w) && forall i :: 0 <= i < k ==> !OptsOut(ws[i])
      else if Polls(w) then forall i :: 0 <= i < k ==> !Polls(ws[i])
      else k == 0 && forall i :: 0 <= i < |ws| ==> !Polls(ws[i])
  }

  lemma PickWatcherPicks(ws: seq<Watcher>, hidden: bool)
    ensures var r := PickWatcher(ws, hidden);
            r.Some? ==> PickedFor(ws, hidden, r.value)
  {
    if hidden {
      if FirstWatcher(ws, OptsOut).Some? {
        var k := FirstWatcherIsFirst(ws, OptsOut);
      }
    } else if FirstWatcher(ws, Polls).Some? {
      var k := FirstWatcherIsFirst(ws, Polls);
    } else {
      FirstWatcherFinds(ws, Polls);
    }
  }

  /** Whoever is picked is watching, and a visible page with a watcher always has someone to pick. */
  lemma PickWatcherFinds(ws: seq<Watcher>, hidden: bool)
    ensures var r := PickWatcher(ws, hidden);
            && (r.Some? ==> Watching(ws, r.value.id))
            && (!hidden ==> (r.Some? <==> ws != []))
            && (hidden ==> (r.Some? <==> exists w :: w in ws && OptsOut(w)))
  {
    FirstWatcherFinds(ws, OptsOut);
    FirstWatcherFinds(ws, Polls);
  }

  /** The cadence is the least positive interval anyone asked for. */
  lemma {:induction false} FastestPollIsLeast(ws: seq<Watcher>)
    ensures var r := FastestPoll(ws);
            if r.Some? then
              && (exists w :: w in ws && Polls(w) && w.pollMs == r)
              && (forall w :: w in ws && Polls(w) ==> r.value <= w.pollMs.value)
            else forall w :: w in ws ==> !Polls(w)
  {
    if ws != [] {
      FastestPollIsLeast(ws[..|ws| - 1]);
      assert ws == ws[..|ws| - 1] + [ws[|ws| - 1]];
    }
  }

  // ---------------------------------------------------------------- operations

  /** The part of `ask` before its await. */
  function Ask(s: Store, replace: bool, owner: Option<nat>, deadlineMs: Option<int>, forceLoading: bool): Store {
    if ShouldSkipQuietFetch(s.attempts.current.Some?, replace) then s
    else
      var ready := if replace then AbortCurrent(s.attempts) else s.attempts;
      var deadline := if deadlineMs.Some? then deadlineMs.value else DEFAULT_REQUEST_DEADLINE_MS;
      s.(attempts := Open(ready, owner, deadline), snapshot := InFlight(s.snapshot, forceLoading))
  }

  function AskFor(s: Store, replace: bool, watcher: Watcher): Store {
    Ask(s, replace, Some(watcher.id), watcher.deadlineMs, false)
  }

  /** Whether and how fast the poll timer should run. */
  function Cadence(ws: seq<Watcher>, hidden: bool): Option<real> {
    if hidden && !HiddenOptOut(ws) then None else FastestPoll(ws)
  }

  /** The part of `retunePulse` that belongs to the resource; the page listener is the table's. */
  function Retune(s: Store, hidden: bool): Store {
    s.(pulse := Cadence(s.watchers, hidden))
  }

  predicate NeedsOpeningLoad(s: Store, staleAfterMs: Option<int>, now: int) {
    if s.snapshot.data == Undefined then true
    else if s.seedDirty then true
    else if staleAfterMs.None? then false
    else if s.settledAt.None? then false
    else now - s.settledAt.value > staleAfterMs.value
  }

  function Join(s: Store, w: Watcher, staleAfterMs: Option<int>, now: int, hidden: bool): Store {
    var joined := s.(watchers := SetWatcher(s.watchers, w));
    var asked :=
      if |joined.watchers| == 1 && NeedsOpeningLoad(joined, staleAfterMs, now) then AskFor(joined, true, w)
      else joined;
    Retune(asked, hidden)
  }

  function CancelOwnedBy(s: Store, owner: nat): Store {
    if !OwnedBy(s.attempts, owner) then s
    else s.(attempts := Drop(s.attempts), snapshot := s.snapshot.(refreshing := false))
  }

  function Leave(s: Store, id: nat, hidden: bool): Store {
    var left := CancelOwnedBy(s, id).(watchers := RemoveWatcher(s.watchers, id));
    if left.watchers == [] then left.(pulse := None)
    else
      var next := PickWatcher(left.watchers, hidden);
      var handed := if OwnedBy(s.attempts, id) && next.Some? then AskFor(left, true, next.value) else left;
      Retune(handed, hidden)
  }

  function Publish(s: Store, data: Data, now: int): Store {
    s.(attempts := Drop(s.attempts),
       snapshot := EMPTY.(data := data, hasSucceeded := true, lastAttemptOk := true),
       seedDirty := s.watchers == [],
       settledAt := Some(now))
  }

  predicate SeedApplies(s: Store) {
    s.watchers == [] && s.snapshot.data == Undefined
  }

  function Seed(s: Store, data: Data, cachedAt: Option<int>, staleAfterMs: Option<int>, now: int): Store {
    if !SeedApplies(s) then s
    else
      var published := Publish(s, data, now);
      if staleAfterMs.Some? && cachedAt.Some? && now - cachedAt.value < staleAfterMs.value
      then published.(seedDirty := false, settledAt := cachedAt)
      else published
  }

  /** A watching owner's own deadline wins over the caller's. */
  function ReloadDeadline(ws: seq<Watcher>, owner: Option<nat>, deadlineMs: Option<int>): Option<int> {
    var watching := if owner.Some? then FirstWatcher(ws, (w: Watcher) => w.id == owner.value) else None;
    if watching.Some? && watching.value.deadlineMs.Some? then watching.value.deadlineMs else deadlineMs
  }

  function Reload(s: Store, owner: Option<nat>, forceLoading: bool, deadlineMs: Option<int>): Store {
    Ask(s, true, owner, ReloadDeadline(s.watchers, owner, deadlineMs), forceLoading)
  }

  function CatchUp(s: Store): Store {
    var next := PickWatcher(s.watchers, false);
    if FastestPoll(s.watchers).None? || next.None? then s else AskFor(s, false, next.value)
  }

  function QuietTick(s: Store, hidden: bool): Store {
    var next := PickWatcher(s.watchers, hidden);
    if next.None? then s else AskFor(s, false, next.value)
  }

  function VisibilityChanged(s: Store, hidden: bool): Store {
    var tuned := Retune(s, hidden);
    if hidden then tuned else CatchUp(tuned)
  }

  function DeadlineFires(s: Store, h: nat): Store
    requires h in s.attempts.unsettled
  {
    s.(attempts := Expire(s.attempts, h))
  }

  /** What the awaited race gives: the abort listener decides at the moment of the abort. */
  function RaceOutcome(a: Attempt, race: Race): Outcome {
    match race
    case LoadFulfilled(data) => Fulfilled(data)
    case LoadRejected(error) => Rejected(error)
    case AbortWon => if a.cause == ByDeadline then Rejected(TimedOut(a.deadlineMs)) else Fulfilled(Null)
  }

  function CommitOfRace(s: Store, h: nat, race: Race): Commit
    requires h in s.attempts.unsettled
  {
    var a := s.attempts.unsettled[h];
    CommitFetch(Identity(h, s.attempts.epoch, a.cause != Live, a.timedOut), RaceOutcome(a, race), s.snapshot)
  }

  /** `settle` then `closeAttempt`. */
  function Settle(s: Store, h: nat, race: Race, now: int): Store
    requires h in s.attempts.unsettled
  {
    var closed := s.(attempts := Close(s.attempts, h));
    match CommitOfRace(s, h, race)
    case Ignore => closed
    case Success(snapshot) => closed.(seedDirty := false, settledAt := Some(now), snapshot := snapshot)
    case Failed(snapshot) => closed.(seedDirty := false, snapshot := snapshot)
  }

  /** `abortOwned`, run when a resource nobody watches is dropped from the table. */
  function Evict(s: Store): Store {
    s.(attempts := Retire(s.attempts), pulse := None)
  }

  // ---------------------------------------------------------------- runs

  datatype Event =
    | JoinEvent(watcher: Watcher, staleAfterMs: Option<int>, now: int, hidden: bool)
    | LeaveEvent(id: nat, hidden: bool)
    | PublishEvent(data: Data, now: int)
    | SeedEvent(data: Data, cachedAt: Option<int>, staleAfterMs: Option<int>, now: int)
    | ReloadEvent(owner: Option<nat>, forceLoading: bool, deadlineMs: Option<int>)
    | TickEvent(hidden: bool)
    | VisibilityEvent(hidden: bool)
    | DeadlineEvent(handle: nat)
    | SettleEvent(handle: nat, race: Race, now: int)
    | EvictEvent

  /**
    * What can happen next. Deadlines and settlements belong to unsettled attempts, the abort
    * listener can only win an aborted race, a tick needs the timer, eviction needs an
    * unwatched resource, and an evicted one is only reached by its own leftovers.
    */
  predicate Enabled(s: Store, e: Event) {
    match e
    case DeadlineEvent(h) => h in s.attempts.unsettled
    case SettleEvent(h, race, _) =>
      h in s.attempts.unsettled && (race.AbortWon? ==> s.attempts.unsettled[h].cause != Live)
    case TickEvent(_) => !s.attempts.retired && s.pulse.Some?
    case EvictEvent => !s.attempts.retired && s.watchers == []
    case _ => !s.attempts.retired
  }

  function Step(s: Store, e: Event): Store
    requires Enabled(s, e)
  {
    match e
    case JoinEvent(w, stale, now, hidden) => Join(s, w, stale, now, hidden)
    case LeaveEvent(id, hidden) => Leave(s, id, hidden)
    case PublishEvent(data, now) => Publish(s, data, now)
    case SeedEvent(data, cachedAt, stale, now) => Seed(s, data, cachedAt, stale, now)
    case ReloadEvent(owner, forceLoading, deadlineMs) => Reload(s, owner, forceLoading, deadlineMs)
    case TickEvent(hidden) => QuietTick(s, hidden)
    case VisibilityEvent(hidden) => VisibilityChanged(s, hidden)
    case DeadlineEvent(h) => DeadlineFires(s, h)
    case SettleEvent(h, race, now) => Settle(s, h, race, now)
    case EvictEvent => Evict(s)
  }

  predicate ValidRun(s: Store, events: seq<Event>)
    decreases |events|
  {
    events != [] ==> Enabled(s, events[0]) && ValidRun(Step(s, events[0]), events[1..])
  }

  function Run(s: Store, events: seq<Event>): Store
    requires ValidRun(s, events)
    decreases |events|
  {
    if events == [] then s else Run(Step(s, events[0]), events[1..])
  }

  /** A value put on screen, and the generation it belongs to. */
  datatype Painted = Painted(epoch: nat, data: Data)

  /** The commit one step makes, if any: a publish, a seed that applied, or a successful settle. */
  function CommitOf(s: Store, e: Event): Option<Painted>
    requires Enabled(s, e)
  {
    match e
    case PublishEvent(data, _) => Some(Painted(s.attempts.epoch + 1, data))
    case SeedEvent(data, _, _, _) => if SeedApplies(s) then Some(Painted(s.attempts.epoch + 1, data)) else None
    case SettleEvent(h, race, _) =>
      var commit := CommitOfRace(s, h, race);
      if commit.Success? then Some(Painted(h, commit.snapshot.data)) else None
    case _ => None
  }

  function Commits(s: Store, events: seq<Event>): seq<Painted>
    requires ValidRun(s, events)
    decreases |events|
  {
    if events == [] then []
    else
      var rest := Commits(Step(s, events[0]), events[1..]);
      var first := CommitOf(s, events[0]);
      if first.Some? then [first.value] + rest else rest
  }
}
