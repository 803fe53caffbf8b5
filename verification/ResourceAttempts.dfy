/**
  * The request attempts of one keyed resource (the `epoch` and `attempt` fields of `Resource`
  * in gui/src/client-resource.ts, with the abort controllers its attempts hold). Epochs are
  * handed out once, so an epoch names its attempt; `unsettled` keeps every attempt whose race
  * has not been settled, including abandoned ones that may still answer late.
  */
module ResourceAttempts {
  import opened Options

  /** What aborted an attempt's signal first, if anything did. */
  datatype AbortCause = Live | ByOwner | ByDeadline

  datatype Attempt = Attempt(owner: Option<nat>, deadlineMs: int, cause: AbortCause, timedOut: bool)

  datatype Attempts = Attempts(epoch: nat, current: Option<nat>, unsettled: map<nat, Attempt>, retired: bool)

  const NONE_YET := Attempts(0, None, map[], false)

  /** `attempt?.abort.abort()`: only the first abort of a signal has an effect. */
  function AbortCurrent(a: Attempts): Attempts {
    if a.current.Some? && a.current.value in a.unsettled && a.unsettled[a.current.value].cause == Live then
      a.(unsettled := a.unsettled[a.current.value := a.unsettled[a.current.value].(cause := ByOwner)])
    else a
  }

  function Open(a: Attempts, owner: Option<nat>, deadlineMs: int): Attempts {
    Attempts(
      a.epoch + 1,
      Some(a.epoch + 1),
      a.unsettled[a.epoch + 1 := Attempt(owner, deadlineMs, Live, false)],
      a.retired)
  }

  /** Abandon the current attempt under a new epoch: a publish, or an owner that left. */
  function Drop(a: Attempts): Attempts {
    AbortCurrent(a).(current := None, epoch := a.epoch + 1)
  }

  /** Abandon the current attempt of a resource that is leaving the table; the epoch stays. */
  function Retire(a: Attempts): Attempts {
    AbortCurrent(a).(current := None, retired := true)
  }

  /** The deadline timer of one attempt, which runs until that attempt is closed. */
  function Expire(a: Attempts, h: nat): Attempts
    requires h in a.unsettled
  {
    var it := a.unsettled[h];
    a.(unsettled := a.unsettled[h := it.(timedOut := true, cause := if it.cause == Live then ByDeadline else it.cause)])
  }

  function Close(a: Attempts, h: nat): Attempts {
    a.(unsettled := a.unsettled - {h}, current := if a.current == Some(h) then None else a.current)
  }

  predicate OwnedBy(a: Attempts, owner: nat) {
    a.current.Some? && a.current.value in a.unsettled && a.unsettled[a.current.value].owner == Some(owner)
  }

  /**
    * One live attempt: everything unsettled other than the current attempt is aborted, the
    * current attempt carries the store's epoch, only its deadline can have aborted it, and no
    * abandoned attempt shares its epoch.
    */
  ghost predicate OneLive(a: Attempts) {
    && (forall h :: h in a.unsettled ==> h <= a.epoch)
    && (forall h :: h in a.unsettled && a.current != Some(h) ==> a.unsettled[h].cause != Live)
    && (forall h :: h in a.unsettled && a.unsettled[h].cause == ByDeadline ==> a.unsettled[h].timedOut)
    && (a.current.Some? ==>
          && a.current.value == a.epoch
          && a.epoch in a.unsettled
          && a.unsettled[a.epoch].cause != ByOwner
          && !a.retired)
    && (a.epoch in a.unsettled ==> a.current == Some(a.epoch) || a.retired)
  }

  /** The attempts whose signal nobody has aborted. */
  ghost function LiveOnes(a: Attempts): set<nat> {
    set h | h in a.unsettled && a.unsettled[h].cause == Live
  }

  lemma AtMostOneLive(a: Attempts)
    requires OneLive(a)
    ensures LiveOnes(a) <= if a.current.Some? then {a.current.value} else {}
    ensures |LiveOnes(a)| <= 1
  {
    if a.current.Some? {
      assert LiveOnes(a) == {} || LiveOnes(a) == {a.current.value};
    } else {
      assert LiveOnes(a) == {};
    }
  }

  lemma OpenKeepsOneLive(a: Attempts, owner: Option<nat>, deadlineMs: int)
    requires OneLive(a) && !a.retired && a.current.None?
    ensures OneLive(Open(a, owner, deadlineMs))
  {
  }

  lemma ReplaceKeepsOneLive(a: Attempts, owner: Option<nat>, deadlineMs: int)
    requires OneLive(a) && !a.retired
    ensures OneLive(Open(AbortCurrent(a), owner, deadlineMs))
  {
  }

  lemma DropKeepsOneLive(a: Attempts)
    requires OneLive(a)
    ensures OneLive(Drop(a))
  {
  }

  lemma RetireKeepsOneLive(a: Attempts)
    requires OneLive(a)
    ensures OneLive(Retire(a))
  {
  }

  lemma ExpireKeepsOneLive(a: Attempts, h: nat)
    requires OneLive(a) && h in a.unsettled
    ensures OneLive(Expire(a, h))
  {
  }

  lemma CloseKeepsOneLive(a: Attempts, h: nat)
    requires OneLive(a)
    ensures OneLive(Close(a, h))
  {
  }
}
