/**
  * When a keyed resource loads, on whose behalf and for how long, and what a settled load shows
  * (gui/src/client-resource.ts over gui/src/client-resource-policy.ts).
  */
module ResourceLoads {
  import opened Options
  import opened ResourcePolicy
  import opened ResourceAttempts
  import opened ResourceStore
  import opened ResourceRuns

  // ---------------------------------------------------------------- opening a load

  /** The time a load gets when whoever it is for does not say. */
  function DeadlineOr30s(deadlineMs: Option<int>): int {
    match deadlineMs
    case Some(ms) => ms
    case None => 30000
  }

  /**
    * `t` is `s` with one fresh live attempt of `owner`, under its deadline: it is refreshing, and
    * loading too when there is nothing to show or loading was asked for.
    */
  ghost predicate Loads(s: Store, t: Store, owner: Option<nat>, deadlineMs: Option<int>, forced: bool) {
    && FreshAttempt(s, t, owner)
    && t.attempts.unsettled[t.attempts.epoch].deadlineMs == DeadlineOr30s(deadlineMs)
    && t.snapshot == s.snapshot.(
         refreshing := true,
         loading := s.snapshot.loading || s.snapshot.data == Undefined || forced)
  }

  lemma AskLoads(s: Store, replace: bool, owner: Option<nat>, deadlineMs: Option<int>, forced: bool)
    requires replace || s.attempts.current.None?
    ensures Loads(s, Ask(s, replace, owner, deadlineMs, forced), owner, deadlineMs, forced)
  {
  }

  /** The joining watcher is the only one there is. */
  predicate Alone(ws: seq<Watcher>, id: nat) {
    forall w :: w in ws ==> w.id == id
  }

  lemma AloneMeansOne(ws: seq<Watcher>, w: Watcher)
    requires DistinctIds(ws)
    ensures |SetWatcher(ws, w)| == 1 <==> Alone(ws, w.id)
  {
    SetWatcherKeepsOthers(ws, w);
    NotWatchingMeans(ws, w.id);
    if |ws| >= 2 {
      assert ws[1..][0] == ws[1] && ws[0].id != ws[1].id;
      assert ws[0] in ws && ws[1] in ws;
    }
  }

  /** There is nothing to show, or it was put there unseen, or it is older than the joiner accepts. */
  predicate WantsLoad(s: Store, staleAfterMs: Option<int>, now: int) {
    || s.snapshot.data == Undefined
    || s.seedDirty
    || (staleAfterMs.Some? && s.settledAt.Some? && now - s.settledAt.value > staleAfterMs.value)
  }

  /** A join loads, for the joiner, exactly when it is alone and the data is absent, unchecked or stale. */
  lemma JoinLoadsExactly(s: Store, w: Watcher, stale: Option<int>, now: int, hidden: bool)
    requires DistinctIds(s.watchers)
    ensures var t := Join(s, w, stale, now, hidden);
            if Alone(s.watchers, w.id) && WantsLoad(s, stale, now) then Loads(s, t, Some(w.id), w.deadlineMs, false)
            else t.attempts == s.attempts && t.snapshot == s.snapshot
  {
    AloneMeansOne(s.watchers, w);
    var joined := s.(watchers := SetWatcher(s.watchers, w));
    AskLoads(joined, true, Some(w.id), w.deadlineMs, false);
  }

  /** The first subscriber of a resource nobody has used always has a load of its own under way. */
  lemma FirstSubscriberLoads(w: Watcher, stale: Option<int>, now: int, hidden: bool)
    ensures var t := Join(FRESH, w, stale, now, hidden);
            && Loads(FRESH, t, Some(w.id), w.deadlineMs, false)
            && t.snapshot.loading && t.watchers == [w]
  {
    JoinLoadsExactly(FRESH, w, stale, now, hidden);
  }

  /** A reload loads for its owner, whose own deadline as a watcher wins over the caller's. */
  lemma ReloadLoads(s: Store, owner: Option<nat>, forced: bool, deadlineMs: Option<int>)
    ensures var t := Reload(s, owner, forced, deadlineMs);
            && (owner.None? || !Watching(s.watchers, owner.value) ==> Loads(s, t, owner, deadlineMs, forced))
            && (forall i :: 0 <= i < |s.watchers| && DistinctIds(s.watchers) && owner == Some(s.watchers[i].id) ==>
                  Loads(s, t, owner, if s.watchers[i].deadlineMs.Some? then s.watchers[i].deadlineMs else deadlineMs, forced))
  {
    AskLoads(s, true, owner, ReloadDeadline(s.watchers, owner, deadlineMs), forced);
    if owner.Some? {
      FirstWatcherFinds(s.watchers, (w: Watcher) => w.id == owner.value);
    }
    forall i | 0 <= i < |s.watchers| && DistinctIds(s.watchers) && owner == Some(s.watchers[i].id)
      ensures FirstWatcher(s.watchers, (w: Watcher) => w.id == owner.value) == Some(s.watchers[i])
    {
      OwnRecord(s.watchers, i, (w: Watcher) => w.id == owner.value);
    }
  }

  lemma {:induction false} OwnRecord(ws: seq<Watcher>, i: nat, own: Watcher -> bool)
    requires DistinctIds(ws) && i < |ws| && forall w :: own(w) <==> w.id == ws[i].id
    ensures FirstWatcher(ws, own) == Some(ws[i])
  {
    if i > 0 {
      NotWatchingMeans(ws[1..], ws[0].id);
      assert ws[1..][i - 1] == ws[i];
      OwnRecord(ws[1..], i - 1, own);
    }
  }

  /** With nothing in flight a tick loads for whoever is to be asked for, or for nobody. */
  lemma TickLoadsForPicked(s: Store, hidden: bool)
    requires s.attempts.current.None?
    ensures var t := QuietTick(s, hidden);
            t == s || exists w :: PickedFor(s.watchers, hidden, w) && Loads(s, t, Some(w.id), w.deadlineMs, false)
  {
    PickWatcherPicks(s.watchers, hidden);
    var next := PickWatcher(s.watchers, hidden);
    if next.Some? {
      AskLoads(s, false, Some(next.value.id), next.value.deadlineMs, false);
    }
  }

  /** A page that shows again loads every idle key somebody polls, and no other. */
  lemma ShownPageLoads(s: Store)
    requires s.attempts.current.None?
    ensures var t := VisibilityChanged(s, false);
            if exists w :: w in s.watchers && Polls(w) then
              exists w :: PickedFor(s.watchers, false, w) && Polls(w) && Loads(s, t, Some(w.id), w.deadlineMs, false)
            else t.attempts == s.attempts && t.snapshot == s.snapshot
  {
    FastestPollIsLeast(s.watchers);
    FirstWatcherFinds(s.watchers, Polls);
    PickWatcherPicks(s.watchers, false);
    var tuned := Retune(s, false);
    var next := PickWatcher(s.watchers, false);
    if FirstWatcher(s.watchers, Polls).Some? {
      AskLoads(tuned, false, Some(next.value.id), next.value.deadlineMs, false);
      assert Polls(next.value);
    }
  }

  /** Whoever leaves without owning the attempt in flight leaves it, and the screen, alone. */
  lemma OtherLeaverKeepsAttempt(s: Store, id: nat, hidden: bool)
    requires !OwnedBy(s.attempts, id)
    ensures Leave(s, id, hidden).attempts == s.attempts && Leave(s, id, hidden).snapshot == s.snapshot
  {
  }

  // ---------------------------------------------------------------- what a settled load shows

  /** The current attempt's load came in before its deadline: it is shown, and nothing else is. */
  lemma LoadedIsShown(s: Store, h: nat, data: Data, now: int)
    requires Inv(s) && s.attempts.current == Some(h) && s.attempts.unsettled[h].cause == Live
    ensures var t := Settle(s, h, LoadFulfilled(data), now);
            && t.snapshot == Snapshot(data, None, false, false, true, true)
            && t.settledAt == Some(now) && !t.seedDirty && t.attempts.current.None?
            && t.watchers == s.watchers && t.pulse == s.pulse
  {
  }

  /** It failed: the failure is shown beside the last good data, with a reason if it had none. */
  lemma FailureIsShown(s: Store, h: nat, error: Failure, now: int)
    requires Inv(s) && s.attempts.current == Some(h)
    ensures var t := Settle(s, h, LoadRejected(error), now);
            var shown := if error == UndefinedReason then LoadFailed else error;
            && t.snapshot == Snapshot(s.snapshot.data, Some(shown), false, false, s.snapshot.hasSucceeded, false)
            && t.settledAt == s.settledAt && !t.seedDirty && t.attempts.current.None?
            && t.watchers == s.watchers && t.pulse == s.pulse
  {
  }

  /** Its deadline passed first: the timeout is shown beside the last good data. */
  lemma TimeoutIsShown(s: Store, h: nat, now: int)
    requires Inv(s) && s.attempts.current == Some(h) && s.attempts.unsettled[h].cause == Live
    ensures var late := DeadlineFires(s, h);
            var t := Settle(late, h, AbortWon, now);
            && Enabled(late, SettleEvent(h, AbortWon, now))
            && t.snapshot == Snapshot(s.snapshot.data, Some(TimedOut(s.attempts.unsettled[h].deadlineMs)),
                                      false, false, s.snapshot.hasSucceeded, false)
            && t.settledAt == s.settledAt && !t.seedDirty && t.attempts.current.None?
  {
  }

  /** Until the resource is dropped, an attempt that is no longer current shows nothing when it settles. */
  lemma AbandonedShowsNothing(s: Store, h: nat, race: Race, now: int)
    requires Inv(s) && !s.attempts.retired && h in s.attempts.unsettled && s.attempts.current != Some(h)
    ensures Settle(s, h, race, now) == s.(attempts := Close(s.attempts, h))
  {
  }

  /** Loaded data spares a later first subscriber its load exactly while it is young enough for it. */
  lemma LoadThenJoin(s: Store, h: nat, data: Data, now: int, w: Watcher, stale: Option<int>, later: int, hidden: bool)
    requires Inv(s) && s.attempts.current == Some(h) && s.attempts.unsettled[h].cause == Live
    requires s.watchers == [] && data != Undefined
    ensures var loaded := Settle(s, h, LoadFulfilled(data), now);
            var t := Join(loaded, w, stale, later, hidden);
            && t.snapshot.data == data
            && if stale.Some? && later - now > stale.value then Loads(loaded, t, Some(w.id), w.deadlineMs, false)
               else t.attempts == loaded.attempts
  {
    LoadedIsShown(s, h, data, now);
    JoinLoadsExactly(Settle(s, h, LoadFulfilled(data), now), w, stale, later, hidden);
  }

  /** Published data replaces whatever the screen showed, errors included. */
  lemma PublishedIsShown(s: Store, data: Data, now: int)
    ensures var t := Publish(s, data, now);
            && t.snapshot == Snapshot(data, None, false, false, true, true)
            && t.settledAt == Some(now) && (t.seedDirty <==> s.watchers == []) && t.attempts.current.None?
  {
  }

  /** A resource that is dropped stops its timer and aborts its load; the screen keeps what it showed. */
  lemma EvictedStops(s: Store)
    requires Inv(s)
    ensures var t := Evict(s);
            && t.pulse.None? && t.attempts.current.None? && LiveOnes(t.attempts) == {} && t.snapshot == s.snapshot
  {
    RetireKeepsOneLive(s.attempts);
    AtMostOneLive(Evict(s).attempts);
  }
}
