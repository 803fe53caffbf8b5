/** What every run of a keyed resource keeps (gui/src/client-resource.ts). */
module ResourceRuns {
  import opened Options
  import opened ResourcePolicy
  import opened ResourceAttempts
  import opened ResourceStore

  // ---------------------------------------------------------------- one live attempt per key

  ghost predicate Inv(s: Store) {
    OneLive(s.attempts) && DistinctIds(s.watchers)
  }

  lemma AskKeepsOneLive(s: Store, replace: bool, owner: Option<nat>, deadlineMs: Option<int>, forceLoading: bool)
    requires OneLive(s.attempts) && !s.attempts.retired
    ensures OneLive(Ask(s, replace, owner, deadlineMs, forceLoading).attempts)
  {
    var deadline := if deadlineMs.Some? then deadlineMs.value else DEFAULT_REQUEST_DEADLINE_MS;
    ReplaceKeepsOneLive(s.attempts, owner, deadline);
    if s.attempts.current.None? {
      OpenKeepsOneLive(s.attempts, owner, deadline);
    }
  }

  lemma JoinKeepsInv(s: Store, w: Watcher, stale: Option<int>, now: int, hidden: bool)
    requires Inv(s) && !s.attempts.retired
    ensures Inv(Join(s, w, stale, now, hidden))
  {
    SetWatcherDistinct(s.watchers, w);
    var joined := s.(watchers := SetWatcher(s.watchers, w));
    AskKeepsOneLive(joined, true, Some(w.id), w.deadlineMs, false);
  }

  lemma LeaveKeepsInv(s: Store, id: nat, hidden: bool)
    requires Inv(s) && !s.attempts.retired
    ensures Inv(Leave(s, id, hidden))
  {
    RemoveWatcherDistinct(s.watchers, id);
    DropKeepsOneLive(s.attempts);
    var left := CancelOwnedBy(s, id).(watchers := RemoveWatcher(s.watchers, id));
    var next := PickWatcher(left.watchers, hidden);
    if next.Some? {
      AskKeepsOneLive(left, true, Some(next.value.id), next.value.deadlineMs, false);
    }
  }

  lemma PollsKeepInv(s: Store, hidden: bool)
    requires Inv(s) && !s.attempts.retired
    ensures Inv(QuietTick(s, hidden))
    ensures Inv(VisibilityChanged(s, hidden))
  {
    var next := PickWatcher(s.watchers, hidden);
    if next.Some? {
      AskKeepsOneLive(s, false, Some(next.value.id), next.value.deadlineMs, false);
    }
    var woken := PickWatcher(s.watchers, false);
    if woken.Some? {
      AskKeepsOneLive(Retune(s, hidden), false, Some(woken.value.id), woken.value.deadlineMs, false);
    }
  }

  lemma StepKeepsInv(s: Store, e: Event)
    requires Inv(s) && Enabled(s, e)
    ensures Inv(Step(s, e))
  {
    match e {
      case JoinEvent(w, stale, now, hidden) => JoinKeepsInv(s, w, stale, now, hidden);
      case LeaveEvent(id, hidden) => LeaveKeepsInv(s, id, hidden);
      case PublishEvent(_, _) => DropKeepsOneLive(s.attempts);
      case SeedEvent(_, _, _, _) => DropKeepsOneLive(s.attempts);
      case ReloadEvent(owner, forceLoading, deadlineMs) =>
        AskKeepsOneLive(s, true, owner, ReloadDeadline(s.watchers, owner, deadlineMs), forceLoading);
      case TickEvent(hidden) => PollsKeepInv(s, hidden);
      case VisibilityEvent(hidden) => PollsKeepInv(s, hidden);
      case DeadlineEvent(h) => ExpireKeepsOneLive(s.attempts, h);
      case SettleEvent(h, _, _) => CloseKeepsOneLive(s.attempts, h);
      case EvictEvent => RetireKeepsOneLive(s.attempts);
    }
  }

  /** Over every run: one live attempt at most, and it is the current one, under the store's epoch. */
  lemma {:induction false} RunKeepsInv(s: Store, events: seq<Event>)
    requires Inv(s) && ValidRun(s, events)
    ensures Inv(Run(s, events))
    ensures |LiveOnes(Run(s, events).attempts)| <= 1
    decreases |events|
  {
    if events == [] {
      AtMostOneLive(s.attempts);
    } else {
      StepKeepsInv(s, events[0]);
      RunKeepsInv(Step(s, events[0]), events[1..]);
    }
  }

  // ---------------------------------------------------------------- stale generations never paint

  /** The least epoch a later commit can carry. */
  function Floor(a: Attempts): nat {
    if a.current.Some? then a.epoch else a.epoch + 1
  }

  /** A step that paints nothing leaves the last good value and never lowers the floor. */
  ghost predicate KeepsData(s: Store, t: Store) {
    && t.snapshot.data == s.snapshot.data
    && t.snapshot.hasSucceeded == s.snapshot.hasSucceeded
    && Floor(s.attempts) <= Floor(t.attempts)
  }

  lemma LeaveKeepsData(s: Store, id: nat, hidden: bool)
    requires Inv(s)
    ensures KeepsData(s, Leave(s, id, hidden))
  {
    var left := CancelOwnedBy(s, id).(watchers := RemoveWatcher(s.watchers, id));
    assert KeepsData(s, left);
    var next := PickWatcher(left.watchers, hidden);
    if next.Some? {
      assert KeepsData(left, AskFor(left, true, next.value));
    }
  }

  lemma SettleIsCurrent(s: Store, h: nat, race: Race, now: int)
    requires Inv(s) && Enabled(s, SettleEvent(h, race, now))
    ensures var c := CommitOf(s, SettleEvent(h, race, now));
            if c.Some? then
              && s.attempts.current == Some(h) && s.attempts.unsettled[h].cause == Live
              && race == LoadFulfilled(c.value.data)
              && c.value.epoch == h == Floor(s.attempts) < Floor(Settle(s, h, race, now).attempts)
              && Settle(s, h, race, now).snapshot == SuccessSnapshot(c.value.data)
            else KeepsData(s, Settle(s, h, race, now))
  {
  }

  /** One step: a commit is of the store's current generation and is what the screen now shows. */
  lemma CommitIsCurrent(s: Store, e: Event)
    requires Inv(s) && Enabled(s, e)
    ensures var c := CommitOf(s, e);
            var t := Step(s, e);
            if c.Some? then
              && c.value.epoch == t.attempts.epoch
              && Floor(s.attempts) <= c.value.epoch < Floor(t.attempts)
              && t.snapshot.data == c.value.data && t.snapshot.hasSucceeded
            else KeepsData(s, t)
  {
    match e {
      case JoinEvent(w, stale, now, hidden) =>
        var joined := s.(watchers := SetWatcher(s.watchers, w));
        assert KeepsData(joined, AskFor(joined, true, w));
      case LeaveEvent(id, hidden) => LeaveKeepsData(s, id, hidden);
      case ReloadEvent(_, _, _) =>
      case TickEvent(_) =>
      case VisibilityEvent(hidden) =>
        assert KeepsData(s, Retune(s, hidden));
      case SettleEvent(h, race, now) => SettleIsCurrent(s, h, race, now);
      case _ =>
    }
  }

  ghost predicate StrictlyIncreasing(commits: seq<Painted>) {
    forall i, j :: 0 <= i < j < |commits| ==> commits[i].epoch < commits[j].epoch
  }

  function LastPainted(before: Data, commits: seq<Painted>): Data {
    if commits == [] then before else commits[|commits| - 1].data
  }

  /**
    * Over every run: the epochs that paint are strictly increasing, the screen shows exactly
    * the last painted value whatever failed, timed out, was replaced or left since, and
    * `hasSucceeded` tells whether anything was ever painted.
    */
  lemma {:induction false} PaintsInOrder(s: Store, events: seq<Event>)
    requires Inv(s) && ValidRun(s, events)
    ensures var commits := Commits(s, events);
            && StrictlyIncreasing(commits)
            && (forall i :: 0 <= i < |commits| ==> Floor(s.attempts) <= commits[i].epoch)
            && Run(s, events).snapshot.data == LastPainted(s.snapshot.data, commits)
            && Run(s, events).snapshot.hasSucceeded == (s.snapshot.hasSucceeded || commits != [])
    decreases |events|
  {
    if events != [] {
      var t := Step(s, events[0]);
      StepKeepsInv(s, events[0]);
      CommitIsCurrent(s, events[0]);
      PaintsInOrder(t, events[1..]);
    }
  }

  /** The run of a fresh resource: present data is exactly the most recent commit. */
  lemma LastGoodDataSurvives(events: seq<Event>)
    requires ValidRun(FRESH, events)
    ensures var commits := Commits(FRESH, events);
            var s := Run(FRESH, events).snapshot;
            && StrictlyIncreasing(commits)
            && (s.hasSucceeded <==> commits != [])
            && s.data == LastPainted(Undefined, commits)
  {
    PaintsInOrder(FRESH, events);
  }

  /** The null an owner abort makes the race resolve to changes nothing but the attempt's own record. */
  lemma OwnerAbortPaintsNothing(s: Store, h: nat, race: Race, now: int)
    requires Inv(s) && h in s.attempts.unsettled && s.attempts.unsettled[h].cause == ByOwner
    ensures Settle(s, h, race, now).snapshot == s.snapshot || s.attempts.retired
    ensures race.AbortWon? || race.LoadFulfilled? ==> Settle(s, h, race, now) == s.(attempts := Close(s.attempts, h))
  {
  }

  /** A resource dropped from the table never paints again, whatever its leftovers do. */
  lemma {:induction false} EvictedPaintsNothing(s: Store, events: seq<Event>)
    requires Inv(s) && s.attempts.retired && ValidRun(s, events)
    ensures Commits(s, events) == []
    ensures Run(s, events).attempts.retired && Run(s, events).snapshot.data == s.snapshot.data
    decreases |events|
  {
    if events != [] {
      StepKeepsInv(s, events[0]);
      CommitIsCurrent(s, events[0]);
      EvictedPaintsNothing(Step(s, events[0]), events[1..]);
    }
  }

  // ---------------------------------------------------------------- the refreshing flag

  ghost predicate RefreshingExact(s: Store) {
    s.snapshot.refreshing <==> s.attempts.current.Some?
  }

  /** A loader that fulfils although its deadline already aborted the current attempt. */
  predicate FulfilsAfterDeadline(s: Store, e: Event) {
    && e.SettleEvent? && e.race.LoadFulfilled?
    && s.attempts.current == Some(e.handle)
    && e.handle in s.attempts.unsettled && s.attempts.unsettled[e.handle].cause == ByDeadline
  }

  lemma AskRefreshes(s: Store, replace: bool, owner: Option<nat>, deadlineMs: Option<int>, forceLoading: bool)
    requires RefreshingExact(s)
    ensures RefreshingExact(Ask(s, replace, owner, deadlineMs, forceLoading))
  {
  }

  lemma LeaveRefreshes(s: Store, id: nat, hidden: bool)
    requires RefreshingExact(s)
    ensures RefreshingExact(Leave(s, id, hidden))
  {
    var left := CancelOwnedBy(s, id).(watchers := RemoveWatcher(s.watchers, id));
    assert RefreshingExact(left);
    var next := PickWatcher(left.watchers, hidden);
    if next.Some? {
      AskRefreshes(left, true, Some(next.value.id), next.value.deadlineMs, false);
    }
  }

  /** `refreshing` keeps meaning "an attempt is current" at every step but one kind of settlement. */
  lemma RefreshingStaysExact(s: Store, e: Event)
    requires Inv(s) && RefreshingExact(s) && Enabled(s, e) && !e.EvictEvent?
    ensures RefreshingExact(Step(s, e)) <==> !FulfilsAfterDeadline(s, e)
  {
    match e {
      case JoinEvent(w, stale, now, hidden) =>
        AskRefreshes(s.(watchers := SetWatcher(s.watchers, w)), true, Some(w.id), w.deadlineMs, false);
      case LeaveEvent(id, hidden) => LeaveRefreshes(s, id, hidden);
      case VisibilityEvent(hidden) =>
        assert RefreshingExact(Retune(s, hidden));
      case _ =>
    }
  }

  /** No event of the run is an eviction or a fulfilment after the deadline. */
  predicate LoadersHonourDeadline(s: Store, events: seq<Event>)
    requires ValidRun(s, events)
    decreases |events|
  {
    events != [] ==>
      && !events[0].EvictEvent? && !FulfilsAfterDeadline(s, events[0])
      && LoadersHonourDeadline(Step(s, events[0]), events[1..])
  }

  lemma {:induction false} RefreshingExactOverRuns(s: Store, events: seq<Event>)
    requires Inv(s) && RefreshingExact(s) && ValidRun(s, events) && LoadersHonourDeadline(s, events)
    ensures RefreshingExact(Run(s, events))
    decreases |events|
  {
    if events != [] {
      StepKeepsInv(s, events[0]);
      RefreshingStaysExact(s, events[0]);
      RefreshingExactOverRuns(Step(s, events[0]), events[1..]);
    }
  }

  /** The excluded case is real: a late fulfilment leaves the flag up with nothing in flight. */
  lemma LateFulfilmentSticks(data: Data)
    ensures var run := [ReloadEvent(None, false, None), DeadlineEvent(1), SettleEvent(1, LoadFulfilled(data), 0)];
            && ValidRun(FRESH, run)
            && Run(FRESH, run).snapshot.refreshing && Run(FRESH, run).attempts.current.None?
  {
    var one := ReloadEvent(None, false, None);
    var two := DeadlineEvent(1);
    var three := SettleEvent(1, LoadFulfilled(data), 0);
    var s1 := Step(FRESH, one);
    var s2 := Step(s1, two);
    var s3 := Step(s2, three);
    assert [three][1..] == [];
    assert ValidRun(s2, [three]) && Run(s2, [three]) == s3;
    assert [two, three][1..] == [three];
    assert ValidRun(s1, [two, three]) && Run(s1, [two, three]) == s3;
    assert [one, two, three][1..] == [two, three];
  }

  // ---------------------------------------------------------------- ownership hand-over

  /** The attempt in flight was asked for by someone who is still watching. */
  ghost predicate OwnerWatching(s: Store) {
    s.attempts.current.Some? && s.attempts.current.value in s.attempts.unsettled ==>
      var owner := s.attempts.unsettled[s.attempts.current.value].owner;
      owner.Some? && Watching(s.watchers, owner.value)
  }

  lemma LeaveHandsOver(s: Store, id: nat, hidden: bool)
    requires Inv(s) && OwnerWatching(s)
    ensures OwnerWatching(Leave(s, id, hidden))
  {
    var left := CancelOwnedBy(s, id).(watchers := RemoveWatcher(s.watchers, id));
    if left.attempts.current.Some? {
      RemoveWatcherIds(s.watchers, id, s.attempts.unsettled[s.attempts.epoch].owner.value);
    }
    PickWatcherFinds(left.watchers, hidden);
  }

  lemma OwnersStayWatching(s: Store, e: Event)
    requires Inv(s) && OwnerWatching(s) && Enabled(s, e)
    requires e.ReloadEvent? ==> e.owner.Some? && Watching(s.watchers, e.owner.value)
    ensures OwnerWatching(Step(s, e))
  {
    match e {
      case JoinEvent(w, stale, now, hidden) =>
        SetWatcherIds(s.watchers, w, w.id);
        if s.attempts.current.Some? {
          SetWatcherIds(s.watchers, w, s.attempts.unsettled[s.attempts.epoch].owner.value);
        }
      case LeaveEvent(id, hidden) => LeaveHandsOver(s, id, hidden);
      case TickEvent(hidden) => PickWatcherFinds(s.watchers, hidden);
      case VisibilityEvent(hidden) => PickWatcherFinds(s.watchers, false);
      case _ =>
    }
  }

  /** Reloads in the run come from subscribers. */
  predicate ReloadsFromWatchers(s: Store, events: seq<Event>)
    requires ValidRun(s, events)
    decreases |events|
  {
    events != [] ==>
      && (events[0].ReloadEvent? ==> events[0].owner.Some? && Watching(s.watchers, events[0].owner.value))
      && ReloadsFromWatchers(Step(s, events[0]), events[1..])
  }

  lemma {:induction false} OwnersWatchingOverRuns(s: Store, events: seq<Event>)
    requires Inv(s) && OwnerWatching(s) && ValidRun(s, events) && ReloadsFromWatchers(s, events)
    ensures OwnerWatching(Run(s, events))
    decreases |events|
  {
    if events != [] {
      StepKeepsInv(s, events[0]);
      OwnersStayWatching(s, events[0]);
      OwnersWatchingOverRuns(Step(s, events[0]), events[1..]);
    }
  }

  /**
    * The owner of the attempt in flight leaves while others watch: its attempt is aborted and,
    * unless the page is hidden and nobody opted out of pausing, a fresh live attempt owned by
    * a remaining watcher is open in the same step.
    */
  lemma OwnerLeavesOthersWatch(s: Store, id: nat, hidden: bool)
    requires Inv(s) && OwnedBy(s.attempts, id) && RemoveWatcher(s.watchers, id) != []
    ensures var t := Leave(s, id, hidden);
            var h := s.attempts.epoch;
            && t.attempts.unsettled[h].cause != Live
            && (t.attempts.current.Some? <==> !hidden || exists w :: w in t.watchers && OptsOut(w))
            && (t.attempts.current.Some? ==>
                  && t.attempts.current == Some(h + 2)
                  && t.attempts.unsettled[h + 2].cause == Live
                  && t.attempts.unsettled[h + 2].owner.Some?
                  && Watching(t.watchers, t.attempts.unsettled[h + 2].owner.value)
                  && t.attempts.unsettled[h + 2].owner != Some(id))
  {
    var left := CancelOwnedBy(s, id).(watchers := RemoveWatcher(s.watchers, id));
    PickWatcherFinds(left.watchers, hidden);
    RemoveWatcherIds(s.watchers, id, id);
  }

  // ---------------------------------------------------------------- who opens attempts, and when

  /** A fresh live attempt of `owner` is current. */
  ghost predicate FreshAttempt(s: Store, t: Store, owner: Option<nat>) {
    && t.attempts.epoch == s.attempts.epoch + 1
    && t.attempts.current == Some(t.attempts.epoch)
    && t.attempts.epoch in t.attempts.unsettled
    && t.attempts.unsettled[t.attempts.epoch].cause == Live
    && t.attempts.unsettled[t.attempts.epoch].owner == owner
  }

  /** A poll or a catch-up never interrupts: it opens an attempt only when none is in flight. */
  lemma PollsNeverInterrupt(s: Store, hidden: bool)
    requires s.attempts.current.Some?
    ensures QuietTick(s, hidden) == s && CatchUp(s) == s
    ensures VisibilityChanged(s, hidden).attempts == s.attempts
  {
  }

  /** With nothing in flight, a tick asks exactly when someone may be asked for, and for that watcher. */
  lemma IdlePollAsks(s: Store, hidden: bool)
    requires s.attempts.current.None?
    ensures var t := QuietTick(s, hidden);
            if (!hidden && s.watchers != []) || exists w :: w in s.watchers && OptsOut(w) then
              exists w :: Watching(s.watchers, w) && FreshAttempt(s, t, Some(w))
            else t == s
  {
    PickWatcherFinds(s.watchers, hidden);
    PickWatcherFinds(s.watchers, true);
    var next := PickWatcher(s.watchers, hidden);
    if next.Some? {
      assert FreshAttempt(s, QuietTick(s, hidden), Some(next.value.id));
    }
  }

  /** A reload always replaces: what was in flight is aborted and stays unpainted, a fresh attempt is current. */
  lemma ReloadReplaces(s: Store, owner: Option<nat>, forceLoading: bool, deadlineMs: Option<int>)
    requires Inv(s) && !s.attempts.retired
    ensures FreshAttempt(s, Reload(s, owner, forceLoading, deadlineMs), owner)
    ensures s.attempts.current.Some? ==>
              Reload(s, owner, forceLoading, deadlineMs).attempts.unsettled[s.attempts.epoch].cause != Live
  {
  }

  /** Data published while nobody watched is shown to the first subscriber and checked at once. */
  lemma PublishThenJoin(s: Store, data: Data, w: Watcher, stale: Option<int>, now: int, later: int, hidden: bool)
    requires s.watchers == []
    ensures var published := Publish(s, data, now);
            var t := Join(published, w, stale, later, hidden);
            t.snapshot.data == data && FreshAttempt(published, t, Some(w.id))
  {
  }

  predicate StillFresh(cachedAt: Option<int>, stale: Option<int>, now: int, later: int) {
    && stale.Some? && cachedAt.Some?
    && now - cachedAt.value < stale.value && later - cachedAt.value <= stale.value
  }

  /** A seed spares the first subscriber its opening load exactly while it is fresh. */
  lemma SeedThenJoin(
      s: Store, data: Data, cachedAt: Option<int>, w: Watcher, stale: Option<int>, now: int, later: int, hidden: bool)
    requires SeedApplies(s) && data != Undefined
    ensures var seeded := Seed(s, data, cachedAt, stale, now);
            var t := Join(seeded, w, stale, later, hidden);
            && t.snapshot.data == data
            && (if StillFresh(cachedAt, stale, now, later) then t.attempts == seeded.attempts
                else FreshAttempt(seeded, t, Some(w.id)))
  {
  }
}
