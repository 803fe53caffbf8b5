/**
  * The table of keyed resources and the one page-visibility listener they share
  * (`table`, `pageListener`, `bindPage` and `unbindPageIfIdle` in gui/src/client-resource.ts).
  */
module ResourceTable {
  import opened Options
  import opened ResourcePolicy
  import opened ResourceAttempts
  import opened ResourceStore
  import Runs = ResourceRuns
  import Loading = ResourceLoads

  type Key = string

  datatype Table = Table(items: map<Key, Store>, hidden: bool, listening: bool)

  const EMPTY_TABLE := Table(map[], false, false)

  /** What `retunePulse` does about the page listener. */
  datatype PageAction = Nothing | Bind | UnbindIfIdle

  predicate WantsCadence(s: Store) {
    FastestPoll(s.watchers).Some?
  }

  predicate SomeWantsCadence(items: map<Key, Store>) {
    exists k :: k in items && WantsCadence(items[k])
  }

  /** `s` is the resource as `retunePulse` finds it, before its timer is touched. */
  function RetuneAction(s: Store, hidden: bool): PageAction {
    var ms := FastestPoll(s.watchers);
    if ms.None? then UnbindIfIdle
    else if hidden && !HiddenOptOut(s.watchers) then Bind
    else if s.pulse == ms then Nothing
    else Bind
  }

  function Listening(items: map<Key, Store>, listening: bool, action: PageAction): bool {
    match action
    case Nothing => listening
    case Bind => true
    case UnbindIfIdle => listening && SomeWantsCadence(items)
  }

  /** The page action of a step on one resource: only joining and leaving reach the listener. */
  function ActionOf(s: Store, e: Event): PageAction {
    match e
    case JoinEvent(w, _, _, hidden) => RetuneAction(s.(watchers := SetWatcher(s.watchers, w)), hidden)
    case LeaveEvent(id, hidden) =>
      var rest := RemoveWatcher(s.watchers, id);
      if rest == [] then UnbindIfIdle else RetuneAction(s.(watchers := rest), hidden)
    case _ => Nothing
  }

  /** `resourceOf`: the resource under a key, made on first use. */
  function ResourceOf(t: Table, key: Key): Store {
    if key in t.items then t.items[key] else FRESH
  }

  datatype TableEvent =
    | Touch(key: Key)
    | On(key: Key, event: Event)
    | PageVisibility(hidden: bool)
    | EvictionTimer(key: Key)

  /** A subscriber's event sees the page as it is; the rest of the table is out of its reach. */
  predicate CanHappen(t: Table, te: TableEvent) {
    match te
    case On(key, e) =>
      && !e.VisibilityEvent? && !e.EvictEvent?
      && (e.JoinEvent? || e.LeaveEvent? || e.TickEvent? ==> e.hidden == t.hidden)
      && Enabled(ResourceOf(t, key), e)
    case _ => true
  }

  function Put(t: Table, key: Key, s: Store): map<Key, Store> {
    t.items[key := s]
  }

  /** A visibility change reaches the resources only while the listener is bound. */
  function PageSees(t: Table, hidden: bool): Table {
    if t.listening then t.(hidden := hidden, items := map k | k in t.items :: VisibilityChanged(t.items[k], hidden))
    else t.(hidden := hidden)
  }

  function TableStep(t: Table, te: TableEvent): Table
    requires CanHappen(t, te)
  {
    match te
    case Touch(key) => t.(items := Put(t, key, ResourceOf(t, key)))
    case On(key, e) =>
      var s := ResourceOf(t, key);
      var items := Put(t, key, Step(s, e));
      t.(items := items, listening := Listening(items, t.listening, ActionOf(s, e)))
    case PageVisibility(hidden) =>
      PageSees(t, hidden)
    case EvictionTimer(key) =>
      if key in t.items && t.items[key].watchers == [] then
        var items := t.items - {key};
        t.(items := items, listening := Listening(items, t.listening, UnbindIfIdle))
      else t
  }

  /** One resource's step, put back into the table, is the table's step. */
  lemma StepOfOne(t: Table, found: map<Key, Store>, key: Key, e: Event, s: Store, page: PageAction)
    requires CanHappen(t, On(key, e)) && found == Put(t, key, ResourceOf(t, key))
    requires s == Step(ResourceOf(t, key), e) && page == ActionOf(ResourceOf(t, key), e)
    ensures TableStep(t, On(key, e)) == Table(found[key := s], t.hidden, Listening(found[key := s], t.listening, page))
  {
    assert found[key := s] == t.items[key := s];
  }

  /** `now` is `items` once the visibility handler has every key but `rest` behind it. */
  ghost predicate Visited(items: map<Key, Store>, now: map<Key, Store>, rest: set<Key>, hidden: bool) {
    && now.Keys == items.Keys
    && forall k :: k in items ==> now[k] == if k in rest then items[k] else VisibilityChanged(items[k], hidden)
  }

  /** A visit changes no watcher, so a listener that was wanted stays bound whatever it decides. */
  lemma VisitOne(items: map<Key, Store>, now: map<Key, Store>, rest: set<Key>, k: Key, hidden: bool, page: PageAction)
    requires Visited(items, now, rest, hidden) && k in rest && k in items && SomeWantsCadence(items)
    ensures var next := now[k := VisibilityChanged(now[k], hidden)];
            Visited(items, next, rest - {k}, hidden) && Listening(next, true, page)
  {
    var next := now[k := VisibilityChanged(now[k], hidden)];
    var j :| j in items && WantsCadence(items[j]);
    assert j in next && next[j].watchers == items[j].watchers;
    assert WantsCadence(next[j]);
  }

  lemma AllVisited(t: Table, now: map<Key, Store>, hidden: bool)
    requires t.listening && Visited(t.items, now, {}, hidden)
    ensures PageSees(t, hidden) == Table(now, hidden, true)
  {
    assert now == map k | k in t.items :: VisibilityChanged(t.items[k], hidden);
  }

  // ---------------------------------------------------------------- the polling invariant

  ghost predicate Tuned(s: Store, hidden: bool) {
    s.pulse == Cadence(s.watchers, hidden)
  }

  /** One key: its timer is tuned, at most one attempt is live, and it is not a leftover. */
  ghost predicate Sound(s: Store, hidden: bool) {
    Tuned(s, hidden) && Runs.Inv(s) && !s.attempts.retired
  }

  /**
    * Every key's timer runs at the cadence its watchers ask for, the page listener is bound
    * exactly when some key polls, and every key has at most one live attempt.
    */
  ghost predicate TableInv(t: Table) {
    && (forall k :: k in t.items ==> Sound(t.items[k], t.hidden))
    && (t.listening <==> SomeWantsCadence(t.items))
  }

  /**
    * The timer runs exactly when someone polls and the page is visible or a polling watcher
    * opted out of pausing, and its period is the least positive interval anyone asked for.
    */
  ghost predicate PollsRight(s: Store, hidden: bool) {
    && (s.pulse.Some? <==>
          && (exists w :: w in s.watchers && Polls(w))
          && (!hidden || exists w :: w in s.watchers && OptsOut(w)))
    && (s.pulse.Some? ==>
          && (exists w :: w in s.watchers && Polls(w) && w.pollMs == s.pulse)
          && (forall w :: w in s.watchers && Polls(w) ==> s.pulse.value <= w.pollMs.value))
  }

  lemma TunedMeans(s: Store, hidden: bool)
    ensures Tuned(s, hidden) <==> PollsRight(s, hidden)
  {
    FastestPollIsLeast(s.watchers);
    FirstWatcherFinds(s.watchers, OptsOut);
  }

  /** Only joining and leaving touch the watchers or the timer of a resource. */
  lemma StepKeepsTuning(s: Store, e: Event)
    requires Enabled(s, e) && !e.JoinEvent? && !e.LeaveEvent? && !e.VisibilityEvent? && !e.EvictEvent?
    ensures Step(s, e).watchers == s.watchers && Step(s, e).pulse == s.pulse
  {
  }

  lemma JoinOrLeaveTunes(s: Store, e: Event)
    requires Enabled(s, e) && (e.JoinEvent? || e.LeaveEvent?)
    ensures Tuned(Step(s, e), e.hidden)
    ensures ActionOf(s, e) == UnbindIfIdle <==> !WantsCadence(Step(s, e))
    ensures ActionOf(s, e) == Nothing ==> s.pulse.Some?
  {
  }

  lemma StepKeepsUnretired(s: Store, e: Event)
    requires Enabled(s, e) && !e.EvictEvent? && !s.attempts.retired
    ensures !Step(s, e).attempts.retired
  {
  }

  lemma PutDecidesListening(t: Table, key: Key, s: Store)
    requires TableInv(t)
    ensures SomeWantsCadence(Put(t, key, s)) ==> WantsCadence(s) || t.listening
    ensures WantsCadence(s) ==> SomeWantsCadence(Put(t, key, s))
    ensures t.listening && (key in t.items ==> WantsCadence(t.items[key]) ==> WantsCadence(s))
            ==> SomeWantsCadence(Put(t, key, s))
  {
    var items := Put(t, key, s);
    if WantsCadence(s) {
      assert key in items && WantsCadence(items[key]);
    }
    if t.listening {
      var k :| k in t.items && WantsCadence(t.items[k]);
      assert k != key ==> items[k] == t.items[k];
    }
  }

  lemma PutKeepsTableInv(t: Table, key: Key, s: Store, listening: bool)
    requires TableInv(t)
    requires Sound(s, t.hidden)
    requires listening <==> SomeWantsCadence(Put(t, key, s))
    ensures TableInv(t.(items := Put(t, key, s), listening := listening))
  {
  }

  lemma OnSetsListening(t: Table, key: Key, e: Event)
    requires TableInv(t) && CanHappen(t, On(key, e))
    ensures var items := Put(t, key, Step(ResourceOf(t, key), e));
            SomeWantsCadence(items) <==> Listening(items, t.listening, ActionOf(ResourceOf(t, key), e))
  {
    var s := ResourceOf(t, key);
    PutDecidesListening(t, key, Step(s, e));
    if e.JoinEvent? || e.LeaveEvent? {
      JoinOrLeaveTunes(s, e);
      if s.pulse.Some? {
        assert key in t.items && WantsCadence(t.items[key]);
      }
    } else {
      StepKeepsTuning(s, e);
    }
  }

  lemma OnKeepsTableInv(t: Table, key: Key, e: Event)
    requires TableInv(t) && CanHappen(t, On(key, e))
    ensures TableInv(TableStep(t, On(key, e)))
  {
    var s := ResourceOf(t, key);
    var u := Step(s, e);
    Runs.StepKeepsInv(s, e);
    StepKeepsUnretired(s, e);
    OnSetsListening(t, key, e);
    assert Tuned(u, t.hidden) by {
      if e.JoinEvent? || e.LeaveEvent? {
        JoinOrLeaveTunes(s, e);
      } else {
        StepKeepsTuning(s, e);
      }
    }
    PutKeepsTableInv(t, key, u, Listening(Put(t, key, u), t.listening, ActionOf(s, e)));
  }

  lemma VisibilityKeepsStore(s: Store, hidden: bool)
    requires Runs.Inv(s) && !s.attempts.retired
    ensures Sound(VisibilityChanged(s, hidden), hidden)
    ensures VisibilityChanged(s, hidden).watchers == s.watchers
  {
    Runs.PollsKeepInv(s, hidden);
  }

  /** With no listener bound nobody polls, so a visibility change nobody hears changes no timer. */
  lemma UnheardVisibility(t: Table, hidden: bool)
    requires TableInv(t) && !t.listening
    ensures TableInv(t.(hidden := hidden))
  {
    forall k | k in t.items
      ensures Sound(t.items[k], hidden)
    {
      assert !WantsCadence(t.items[k]);
    }
  }

  /** `u` is what one key becomes: tuned to the new visibility, polling as before, still sound. */
  ghost predicate Retuned(s: Store, u: Store, hidden: bool) {
    Sound(u, hidden) && u.watchers == s.watchers
  }

  lemma AllRetunedKeepsTableInv(t: Table, u: Table)
    requires TableInv(t) && t.listening && u.listening && u.items.Keys == t.items.Keys
    requires forall k :: k in t.items ==> Retuned(t.items[k], u.items[k], u.hidden)
    ensures TableInv(u)
  {
    var k :| k in t.items && WantsCadence(t.items[k]);
    assert Retuned(t.items[k], u.items[k], u.hidden);
    assert k in u.items && WantsCadence(u.items[k]);
  }

  lemma VisibilityKeepsTableInv(t: Table, hidden: bool)
    requires TableInv(t)
    ensures TableInv(TableStep(t, PageVisibility(hidden)))
  {
    if !t.listening {
      UnheardVisibility(t, hidden);
    } else {
      var u := TableStep(t, PageVisibility(hidden));
      forall k | k in t.items
        ensures Retuned(t.items[k], u.items[k], hidden)
      {
        VisibilityKeepsStore(t.items[k], hidden);
      }
      AllRetunedKeepsTableInv(t, u);
    }
  }

  lemma EvictionKeepsTableInv(t: Table, key: Key)
    requires TableInv(t)
    ensures TableInv(TableStep(t, EvictionTimer(key)))
  {
    if key in t.items && t.items[key].watchers == [] {
      var items := t.items - {key};
      if t.listening {
        var k :| k in t.items && WantsCadence(t.items[k]);
        assert k in items && WantsCadence(items[k]);
      } else {
        assert forall k :: k in items ==> k in t.items && items[k] == t.items[k];
      }
    }
  }

  lemma TouchKeepsTableInv(t: Table, key: Key)
    requires TableInv(t)
    ensures TableInv(TableStep(t, Touch(key)))
  {
    var s := ResourceOf(t, key);
    PutDecidesListening(t, key, s);
    PutKeepsTableInv(t, key, s, t.listening);
  }

  lemma TableStepKeepsInv(t: Table, te: TableEvent)
    requires TableInv(t) && CanHappen(t, te)
    ensures TableInv(TableStep(t, te))
  {
    match te {
      case Touch(key) => TouchKeepsTableInv(t, key);
      case On(key, e) => OnKeepsTableInv(t, key, e);
      case PageVisibility(hidden) => VisibilityKeepsTableInv(t, hidden);
      case EvictionTimer(key) => EvictionKeepsTableInv(t, key);
    }
  }

  // ---------------------------------------------------------------- runs of the whole table

  predicate ValidTableRun(t: Table, run: seq<TableEvent>)
    decreases |run|
  {
    run != [] ==> CanHappen(t, run[0]) && ValidTableRun(TableStep(t, run[0]), run[1..])
  }

  function TableRun(t: Table, run: seq<TableEvent>): Table
    requires ValidTableRun(t, run)
    decreases |run|
  {
    if run == [] then t else TableRun(TableStep(t, run[0]), run[1..])
  }

  lemma {:induction false} TableRunKeepsInv(t: Table, run: seq<TableEvent>)
    requires TableInv(t) && ValidTableRun(t, run)
    ensures TableInv(TableRun(t, run))
    decreases |run|
  {
    if run != [] {
      TableStepKeepsInv(t, run[0]);
      TableRunKeepsInv(TableStep(t, run[0]), run[1..]);
    }
  }

  /**
    * Over every run of the whole table from an empty one: every key's timer runs when and as
    * fast as its watchers ask, and the listener is bound exactly when some key has a polling
    * watcher.
    */
  lemma PollingFollowsWatchers(run: seq<TableEvent>, key: Key)
    requires ValidTableRun(EMPTY_TABLE, run)
    ensures var t := TableRun(EMPTY_TABLE, run);
            && (t.listening <==> exists k, w :: k in t.items && w in t.items[k].watchers && Polls(w))
            && (key in t.items ==> PollsRight(t.items[key], t.hidden))
  {
    TableRunKeepsInv(EMPTY_TABLE, run);
    var t := TableRun(EMPTY_TABLE, run);
    forall k | k in t.items
      ensures WantsCadence(t.items[k]) <==> exists w :: w in t.items[k].watchers && Polls(w)
    {
      FastestPollIsLeast(t.items[k].watchers);
    }
    if key in t.items {
      TunedMeans(t.items[key], t.hidden);
    }
  }

  // ---------------------------------------------------------------- one key at a time

  /** An eviction timer drops exactly its own key, and only while nobody watches it. */
  lemma EvictionDropsUnwatched(t: Table, key: Key)
    ensures var u := TableStep(t, EvictionTimer(key));
            && (forall k :: k in u.items <==> k in t.items && !(k == key && t.items[k].watchers == []))
            && (forall k :: k in u.items ==> u.items[k] == t.items[k])
            && u.hidden == t.hidden
  {
  }

  /** A step on one key makes it if need be, and leaves every other key as it was. */
  lemma OtherKeysUntouched(t: Table, key: Key, e: Event)
    requires CanHappen(t, On(key, e))
    ensures var u := TableStep(t, On(key, e));
            && u.items.Keys == t.items.Keys + {key}
            && (forall k :: k in t.items && k != key ==> u.items[k] == t.items[k])
            && u.items[key] == Step(if key in t.items then t.items[key] else FRESH, e)
  {
  }

  /** When the page shows again, every idle key somebody polls loads for one of those who poll it. */
  lemma ShownPageLoadsEveryKey(t: Table, key: Key)
    requires t.listening && key in t.items && t.items[key].attempts.current.None?
    requires exists w :: w in t.items[key].watchers && Polls(w)
    ensures var u := TableStep(t, PageVisibility(false));
            && u.items.Keys == t.items.Keys && !u.hidden
            && exists w :: PickedFor(t.items[key].watchers, false, w) && Polls(w)
                        && Loading.Loads(t.items[key], u.items[key], Some(w.id), w.deadlineMs, false)
  {
    Loading.ShownPageLoads(t.items[key]);
  }

  /** A page that hides starts nothing. */
  lemma HiddenPageStartsNothing(t: Table, key: Key)
    requires key in t.items
    ensures var u := TableStep(t, PageVisibility(true));
            && u.items.Keys == t.items.Keys && u.hidden
            && u.items[key].attempts == t.items[key].attempts && u.items[key].snapshot == t.items[key].snapshot
  {
  }
}
