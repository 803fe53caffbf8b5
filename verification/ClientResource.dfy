/**
  * The keyed resource runtime as the objects of gui/src/client-resource.ts: `Resource` with
  * the fields its methods update, and the module-level table and page listener. Every method
  * is proved to do the step of `ResourceStore` or `ResourceTable` that models it. The loader
  * call, the timers and the notifications are the environment; `unsettled` stands for the
  * abort controllers the open requests hold.
  */
module ClientResource {
  import opened Options
  import opened ResourcePolicy
  import Attempts = ResourceAttempts
  import Spec = ResourceStore
  import Page = ResourceTable

  class Resource {
    var snapshot: Snapshot
    var epoch: nat
    var seedDirty: bool
    var settledAt: Option<int>
    var watchers: seq<Spec.Watcher>
    var attempt: Option<nat>
    var unsettled: map<nat, Attempts.Attempt>
    var pulseMs: Option<real>
    var evicted: bool

    ghost function Model(): Spec.Store
      reads this
    {
      Spec.Store(snapshot, Attempts.Attempts(epoch, attempt, unsettled, evicted),
                 seedDirty, settledAt, watchers, pulseMs)
    }

    constructor ()
      ensures Model() == Spec.FRESH
    {
      snapshot := EMPTY;
      epoch := 0;
      seedDirty := false;
      settledAt := None;
      watchers := [];
      attempt := None;
      unsettled := map[];
      pulseMs := None;
      evicted := false;
    }

    method FastestPoll() returns (lowest: Option<real>)
      ensures lowest == Spec.FastestPoll(watchers)
    {
      lowest := None;
      for i := 0 to |watchers|
        invariant lowest == Spec.FastestPoll(watchers[..i])
      {
        assert watchers[..i + 1][..i] == watchers[..i];
        if Spec.Polls(watchers[i]) {
          if lowest.None? {
            lowest := watchers[i].pollMs;
          } else if watchers[i].pollMs.value < lowest.value {
            lowest := watchers[i].pollMs;
          }
        }
      }
      assert watchers[..|watchers|] == watchers;
    }

    method FirstWatcher(want: Spec.Watcher -> bool) returns (found: Option<Spec.Watcher>)
      ensures found == Spec.FirstWatcher(watchers, want)
    {
      for i := 0 to |watchers|
        invariant Spec.FirstWatcher(watchers, want) == Spec.FirstWatcher(watchers[i..], want)
      {
        if want(watchers[i]) {
          return Some(watchers[i]);
        }
      }
      return None;
    }

    method PickWatcher(hidden: bool) returns (found: Option<Spec.Watcher>)
      ensures found == Spec.PickWatcher(watchers, hidden)
    {
      if hidden {
        found := FirstWatcher(Spec.OptsOut);
        return;
      }
      found := FirstWatcher(Spec.Polls);
      if found.None? && watchers != [] {
        found := Some(watchers[0]);
      }
    }

    method AbortAttempt()
      modifies this`unsettled
      ensures Model().attempts == Attempts.AbortCurrent(old(Model()).attempts)
    {
      if attempt.Some? && attempt.value in unsettled && unsettled[attempt.value].cause == Attempts.Live {
        unsettled := unsettled[attempt.value := unsettled[attempt.value].(cause := Attempts.ByOwner)];
      }
    }

    method OpenAttempt(owner: Option<nat>, deadlineMs: int, forceLoading: bool) returns (handle: nat)
      modifies this
      ensures handle == epoch == old(epoch) + 1
      ensures Model() == old(Model()).(
                attempts := Attempts.Open(old(Model()).attempts, owner, deadlineMs),
                snapshot := InFlight(old(snapshot), forceLoading))
    {
      epoch := epoch + 1;
      handle := epoch;
      unsettled := unsettled[handle := Attempts.Attempt(owner, deadlineMs, Attempts.Live, false)];
      attempt := Some(handle);
      snapshot := InFlight(snapshot, forceLoading);
    }

    method Ask(replace: bool, owner: Option<nat>, deadlineMs: Option<int>, forceLoading: bool)
      modifies this
      ensures Model() == Spec.Ask(old(Model()), replace, owner, deadlineMs, forceLoading)
    {
      if ShouldSkipQuietFetch(attempt.Some?, replace) {
        return;
      }
      if replace {
        AbortAttempt();
      }
      var deadline := if deadlineMs.Some? then deadlineMs.value else DEFAULT_REQUEST_DEADLINE_MS;
      var handle := OpenAttempt(owner, deadline, forceLoading);
    }

    method RetunePulse(hidden: bool) returns (page: Page.PageAction)
      modifies this`pulseMs
      ensures Model() == Spec.Retune(old(Model()), hidden)
      ensures page == Page.RetuneAction(old(Model()), hidden)
    {
      var ms := FastestPoll();
      if ms.None? {
        pulseMs := None;
        return Page.UnbindIfIdle;
      }
      var optOut := FirstWatcher(Spec.OptsOut);
      if hidden && optOut.None? {
        pulseMs := None;
        return Page.Bind;
      }
      if pulseMs == ms {
        return Page.Nothing;
      }
      pulseMs := ms;
      return Page.Bind;
    }

    method Join(w: Spec.Watcher, staleAfterMs: Option<int>, now: int, hidden: bool) returns (page: Page.PageAction)
      modifies this
      ensures Model() == Spec.Join(old(Model()), w, staleAfterMs, now, hidden)
      ensures page == Page.ActionOf(old(Model()), Spec.JoinEvent(w, staleAfterMs, now, hidden))
    {
      watchers := Spec.SetWatcher(watchers, w);
      if |watchers| == 1 && NeedsOpeningLoad(staleAfterMs, now) {
        Ask(true, Some(w.id), w.deadlineMs, false);
      }
      page := RetunePulse(hidden);
    }

    predicate NeedsOpeningLoad(staleAfterMs: Option<int>, now: int)
      reads this
      ensures NeedsOpeningLoad(staleAfterMs, now) == Spec.NeedsOpeningLoad(Model(), staleAfterMs, now)
    {
      if snapshot.data == Undefined then true
      else if seedDirty then true
      else if staleAfterMs.None? || settledAt.None? then false
      else now - settledAt.value > staleAfterMs.value
    }

    method CancelOwnedBy(owner: nat) returns (killed: bool)
      modifies this
      ensures Model() == Spec.CancelOwnedBy(old(Model()), owner)
      ensures killed == Attempts.OwnedBy(old(Model()).attempts, owner)
    {
      if attempt.None? || attempt.value !in unsettled || unsettled[attempt.value].owner != Some(owner) {
        return false;
      }
      AbortAttempt();
      attempt := None;
      epoch := epoch + 1;
      if snapshot.refreshing {
        snapshot := snapshot.(refreshing := false);
      }
      return true;
    }

    method Leave(id: nat, hidden: bool) returns (page: Page.PageAction)
      modifies this
      ensures Model() == Spec.Leave(old(Model()), id, hidden)
      ensures page == Page.ActionOf(old(Model()), Spec.LeaveEvent(id, hidden))
    {
      watchers := Spec.RemoveWatcher(watchers, id);
      var killed := CancelOwnedBy(id);
      if watchers == [] {
        pulseMs := None;
        return Page.UnbindIfIdle;
      }
      if killed {
        var next := PickWatcher(hidden);
        if next.Some? {
          Ask(true, Some(next.value.id), next.value.deadlineMs, false);
        }
      }
      page := RetunePulse(hidden);
    }

    method Publish(data: Data, now: int)
      modifies this
      ensures Model() == Spec.Publish(old(Model()), data, now)
    {
      AbortAttempt();
      attempt := None;
      epoch := epoch + 1;
      snapshot := EMPTY.(data := data, hasSucceeded := true, lastAttemptOk := true);
      seedDirty := watchers == [];
      settledAt := Some(now);
    }

    method SeedVacant(data: Data, cachedAt: Option<int>, staleAfterMs: Option<int>, now: int)
      modifies this
      ensures Model() == Spec.Seed(old(Model()), data, cachedAt, staleAfterMs, now)
    {
      if watchers != [] || snapshot.data != Undefined {
        return;
      }
      Publish(data, now);
      if staleAfterMs.Some? && cachedAt.Some? && now - cachedAt.value < staleAfterMs.value {
        seedDirty := false;
        settledAt := cachedAt;
      }
    }

    method Reload(owner: Option<nat>, forceLoading: bool, deadlineMs: Option<int>)
      modifies this
      ensures Model() == Spec.Reload(old(Model()), owner, forceLoading, deadlineMs)
    {
      var watching: Option<Spec.Watcher> := None;
      if owner.Some? {
        watching := FirstWatcher((w: Spec.Watcher) => w.id == owner.value);
      }
      var deadline := if watching.Some? && watching.value.deadlineMs.Some? then watching.value.deadlineMs else deadlineMs;
      Ask(true, owner, deadline, forceLoading);
    }

    method CatchUp()
      modifies this
      ensures Model() == Spec.CatchUp(old(Model()))
    {
      var ms := FastestPoll();
      if ms.None? {
        return;
      }
      var next := PickWatcher(false);
      if next.Some? {
        Ask(false, Some(next.value.id), next.value.deadlineMs, false);
      }
    }

    /** What the visibility handler does to one resource. */
    method VisibilityChanged(hidden: bool) returns (page: Page.PageAction)
      modifies this
      ensures Model() == Spec.VisibilityChanged(old(Model()), hidden)
    {
      page := RetunePulse(hidden);
      if !hidden {
        CatchUp();
      }
    }

    method QuietTick(hidden: bool)
      modifies this
      ensures Model() == Spec.QuietTick(old(Model()), hidden)
    {
      var next := PickWatcher(hidden);
      if next.Some? {
        Ask(false, Some(next.value.id), next.value.deadlineMs, false);
      }
    }

    method DeadlineFires(handle: nat)
      requires handle in unsettled
      modifies this`unsettled
      ensures Model() == Spec.DeadlineFires(old(Model()), handle)
    {
      var it := unsettled[handle].(timedOut := true);
      if it.cause == Attempts.Live {
        it := it.(cause := Attempts.ByDeadline);
      }
      unsettled := unsettled[handle := it];
    }

    /** The rest of `ask`, after its await: settle, then close. */
    method Settle(handle: nat, race: Spec.Race, now: int)
      requires handle in unsettled
      modifies this
      ensures Model() == Spec.Settle(old(Model()), handle, race, now)
    {
      var it := unsettled[handle];
      var identity := Identity(handle, epoch, it.cause != Attempts.Live, it.timedOut);
      var commit := CommitFetch(identity, Spec.RaceOutcome(it, race), snapshot);
      if !commit.Ignore? {
        seedDirty := false;
        if commit.Success? {
          settledAt := Some(now);
        }
        snapshot := commit.snapshot;
      }
      unsettled := unsettled - {handle};
      if attempt == Some(handle) {
        attempt := None;
      }
    }

    method AbortOwned()
      modifies this
      ensures Model() == Spec.Evict(old(Model()))
    {
      AbortAttempt();
      attempt := None;
      pulseMs := None;
      evicted := true;
    }
  }

  /** The module's `table` and `pageListener`, and the page they listen to. */
  class Runtime {
    var table: map<Page.Key, Resource>
    var hidden: bool
    var listening: bool

    /** No two keys share a resource. */
    ghost predicate Valid()
      reads this`table
    {
      forall j, k :: j in table && k in table && j != k ==> table[j] != table[k]
    }

    ghost function Items(): map<Page.Key, Spec.Store>
      reads this`table, table.Values
    {
      map k | k in table :: table[k].Model()
    }

    ghost function Model(): Page.Table
      reads this, table.Values
    {
      Page.Table(Items(), hidden, listening)
    }

    constructor ()
      ensures Valid() && Model() == Page.EMPTY_TABLE
    {
      table := map[];
      hidden := false;
      listening := false;
    }

    method ResourceOf(key: Page.Key) returns (item: Resource)
      requires Valid()
      modifies this`table
      ensures Valid() && key in table && table[key] == item
      ensures key in old(table) ==> table == old(table)
      ensures key !in old(table) ==> fresh(item) && table == old(table)[key := item]
      ensures Items() == Page.Put(old(Model()), key, Page.ResourceOf(old(Model()), key))
      ensures item.Model() == Page.ResourceOf(old(Model()), key)
    {
      ghost var before := Items();
      if key in table {
        assert before[key := before[key]] == before;
        return table[key];
      }
      item := new Resource();
      table := table[key := item];
      OneAdded(before, key);
    }

    lemma OneAdded(before: map<Page.Key, Spec.Store>, key: Page.Key)
      requires table.Keys == before.Keys + {key}
      requires forall k :: k in table && k != key ==> table[k].Model() == before[k]
      ensures Items() == before[key := table[key].Model()]
    {
    }

    method UnbindPageIfIdle()
      modifies this`listening
      ensures listening == Page.Listening(Items(), old(listening), Page.UnbindIfIdle)
    {
      if !listening {
        return;
      }
      ghost var items := Items();
      var rest := table.Keys;
      while rest != {}
        invariant listening && items == Items()
        invariant rest <= table.Keys
        invariant forall k :: k in items && k !in rest ==> !Page.WantsCadence(items[k])
      {
        var k :| k in rest;
        var ms := table[k].FastestPoll();
        if ms.Some? {
          assert k in items && Page.WantsCadence(items[k]);
          return;
        }
        rest := rest - {k};
      }
      listening := false;
    }

    method Apply(page: Page.PageAction)
      modifies this`listening
      ensures listening == Page.Listening(Items(), old(listening), page)
    {
      match page
      case Nothing =>
      case Bind => listening := true;
      case UnbindIfIdle => UnbindPageIfIdle();
    }

    /** Changing one resource changes one entry. */
    lemma OneChanged(before: map<Page.Key, Spec.Store>, key: Page.Key)
      requires key in table && before.Keys == table.Keys
      requires forall k :: k in table && k != key ==> table[k].Model() == before[k]
      ensures Items() == before[key := table[key].Model()]
    {
    }

    method JoinAt(key: Page.Key, w: Spec.Watcher, staleAfterMs: Option<int>, now: int) returns (page: Page.PageAction)
      requires Valid() && key in table
      modifies table[key], this`listening
      ensures page == Page.ActionOf(old(Items())[key], Spec.JoinEvent(w, staleAfterMs, now, hidden))
      ensures Items() == old(Items())[key := Spec.Join(old(Items())[key], w, staleAfterMs, now, hidden)]
      ensures listening == Page.Listening(Items(), old(listening), page)
    {
      ghost var before := Items();
      page := table[key].Join(w, staleAfterMs, now, hidden);
      OneChanged(before, key);
      Apply(page);
    }

    method Subscribe(key: Page.Key, w: Spec.Watcher, staleAfterMs: Option<int>, now: int)
      requires Valid() && (key in table ==> !table[key].evicted)
      modifies this, table.Values
      ensures Valid()
      ensures Model() == Page.TableStep(old(Model()), Page.On(key, Spec.JoinEvent(w, staleAfterMs, now, old(hidden))))
    {
      var item := ResourceOf(key);
      ghost var found := Items();
      var page := JoinAt(key, w, staleAfterMs, now);
      Page.StepOfOne(old(Model()), found, key, Spec.JoinEvent(w, staleAfterMs, now, hidden), Items()[key], page);
    }

    method LeaveAt(key: Page.Key, id: nat) returns (page: Page.PageAction)
      requires Valid() && key in table
      modifies table[key], this`listening
      ensures page == Page.ActionOf(old(Items())[key], Spec.LeaveEvent(id, hidden))
      ensures Items() == old(Items())[key := Spec.Leave(old(Items())[key], id, hidden)]
      ensures listening == Page.Listening(Items(), old(listening), page)
    {
      ghost var before := Items();
      page := table[key].Leave(id, hidden);
      OneChanged(before, key);
      Apply(page);
    }

    /** An unsubscribe function keeps its own resource, whatever the key names by then. */
    method Unsubscribe(key: Page.Key, item: Resource, id: nat)
      requires Valid() && (item in table.Values ==> key in table && table[key] == item && !item.evicted)
      modifies this`listening, item
      ensures Valid()
      ensures key in table && table[key] == item ==>
                Model() == Page.TableStep(old(Model()), Page.On(key, Spec.LeaveEvent(id, hidden)))
      ensures item !in table.Values ==>
                && Items() == old(Items()) && item.Model() == Spec.Leave(old(item.Model()), id, hidden)
                && listening == Page.Listening(Items(), old(listening),
                                               Page.ActionOf(old(item.Model()), Spec.LeaveEvent(id, hidden)))
    {
      if key in table && table[key] == item {
        LeaveInTable(key, id);
      } else {
        var page := item.Leave(id, hidden);
        Apply(page);
      }
    }

    method LeaveInTable(key: Page.Key, id: nat)
      requires Valid() && key in table && !table[key].evicted
      modifies this`listening, table[key]
      ensures Model() == Page.TableStep(old(Model()), Page.On(key, Spec.LeaveEvent(id, hidden)))
    {
      ghost var found := Items();
      assert found[key := found[key]] == found;
      var page := LeaveAt(key, id);
      Page.StepOfOne(old(Model()), found, key, Spec.LeaveEvent(id, hidden), Items()[key], page);
    }

    lemma OneRemoved(before: map<Page.Key, Spec.Store>, key: Page.Key)
      requires table.Keys == before.Keys - {key}
      requires forall k :: k in table ==> table[k].Model() == before[k]
      ensures Items() == before - {key}
    {
    }

    method Remove(key: Page.Key)
      requires Valid() && key in table
      modifies this`table, table[key]
      ensures Valid() && Items() == old(Items()) - {key}
    {
      ghost var before := Items();
      table[key].AbortOwned();
      table := table - {key};
      OneRemoved(before, key);
    }

    /** The deferred half of `scheduleEviction`. */
    method EvictionTimer(key: Page.Key)
      requires Valid()
      modifies this, table.Values
      ensures Valid()
      ensures Model() == Page.TableStep(old(Model()), Page.EvictionTimer(key))
    {
      if key !in table || table[key].watchers != [] {
        return;
      }
      Remove(key);
      UnbindPageIfIdle();
    }

    /** One round of the handler's loop. */
    method VisibilityAt(k: Page.Key, nowHidden: bool) returns (page: Page.PageAction)
      requires Valid() && k in table
      modifies table[k], this`listening
      ensures Items() == old(Items())[k := Spec.VisibilityChanged(old(Items())[k], nowHidden)]
      ensures listening == Page.Listening(Items(), old(listening), page)
    {
      ghost var before := Items();
      page := table[k].VisibilityChanged(nowHidden);
      OneChanged(before, k);
      Apply(page);
    }

    method VisitAll(nowHidden: bool)
      requires Valid() && listening && Page.SomeWantsCadence(Items())
      modifies table.Values, this`listening
      ensures listening && Page.Visited(old(Items()), Items(), {}, nowHidden)
    {
      ghost var before := Items();
      var rest := table.Keys;
      while rest != {}
        invariant rest <= table.Keys && listening
        invariant Page.Visited(before, Items(), rest, nowHidden)
      {
        var k :| k in rest;
        ghost var now := Items();
        var page := VisibilityAt(k, nowHidden);
        Page.VisitOne(before, now, rest, k, nowHidden, page);
        rest := rest - {k};
      }
    }

    /** The visibility handler: retune every key, and let each catch up when the page shows. */
    method OnChange(nowHidden: bool)
      requires Valid() && listening && Page.SomeWantsCadence(Items())
      modifies this, table.Values
      ensures Valid() && listening && hidden == nowHidden
      ensures Items() == Page.PageSees(old(Model()), nowHidden).items
    {
      ghost var before := Model();
      VisitAll(nowHidden);
      Page.AllVisited(before, Items(), nowHidden);
      hidden := nowHidden;
    }

    /** The page's visibility changes; nobody hears it unless the listener is bound. */
    method VisibilityChange(nowHidden: bool)
      requires Valid() && (listening ==> Page.SomeWantsCadence(Items()))
      modifies this, table.Values
      ensures Valid()
      ensures Model() == Page.TableStep(old(Model()), Page.PageVisibility(nowHidden))
    {
      if listening {
        OnChange(nowHidden);
      } else {
        hidden := nowHidden;
      }
    }
  }
}
