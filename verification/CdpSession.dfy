/**
  * The CDP request registry and the session over it (scripts/cdp-request-registry.ts and
  * scripts/evidence-cdp-session.ts). `log` records every call of a request's resolve or
  * reject, in order.
  */
module CdpSession {
  import opened Options

  type Payload(==, !new)

  datatype Outcome =
    | Resolved(result: Payload)
    | Failed(name: string, code: Option<int>, message: Option<string>)
    | TimedOut(name: string)
    | SendFailed
    | SessionFailed(reason: SessionFailure)

  datatype SessionFailure = InvalidJson | SocketClosed | SocketError | Disposed

  datatype Settled = Settled(id: nat, outcome: Outcome)

  datatype Registry = Registry(nextId: nat, pending: map<nat, string>, log: seq<Settled>)

  const EMPTY := Registry(1, map[], [])

  datatype Reply = ResultReply(result: Payload) | ErrorReply(code: Option<int>, message: Option<string>)

  // ---------------------------------------------------------------- registry operations

  function SettleId(r: Registry, id: nat, outcome: Outcome): Registry {
    r.(pending := r.pending - {id}, log := r.log + [Settled(id, outcome)])
  }

  /** A new id is pending while it is sent; a send that throws settles it at once. */
  function Issue(r: Registry, name: string, sent: bool): Registry {
    var issued := r.(nextId := r.nextId + 1, pending := r.pending[r.nextId := name]);
    if sent then issued else SettleId(issued, r.nextId, SendFailed)
  }

  function ReplyOutcome(name: string, reply: Reply): Outcome {
    match reply
    case ResultReply(result) => Resolved(result)
    case ErrorReply(code, message) => Failed(name, code, message)
  }

  function Deliver(r: Registry, id: nat, reply: Reply): Registry {
    if id in r.pending then SettleId(r, id, ReplyOutcome(r.pending[id], reply)) else r
  }

  function Expire(r: Registry, id: nat): Registry {
    if id in r.pending then SettleId(r, id, TimedOut(r.pending[id])) else r
  }

  /** `rejectAll` from `id` on: ids are handed out in order, which is the order of the map. */
  function RejectFrom(r: Registry, id: nat, reason: SessionFailure): Registry
    decreases r.nextId - id
  {
    if id >= r.nextId then r
    else RejectFrom(if id in r.pending then SettleId(r, id, SessionFailed(reason)) else r, id + 1, reason)
  }

  // ---------------------------------------------------------------- exactly once

  function Times(log: seq<Settled>, id: nat): nat {
    if log == [] then 0 else Times(log[..|log| - 1], id) + (if log[|log| - 1].id == id then 1 else 0)
  }

  function Owed(r: Registry, id: nat): nat {
    if id in r.pending then 1 else 0
  }

  /** Every issued id is pending or settled, never both, never twice; no other id is either. */
  ghost predicate ExactlyOnce(r: Registry) {
    && r.nextId >= 1
    && forall id: nat :: Owed(r, id) + Times(r.log, id) == if 1 <= id < r.nextId then 1 else 0
  }

  lemma TimesAppend(log: seq<Settled>, entry: Settled, id: nat)
    ensures Times(log + [entry], id) == Times(log, id) + (if entry.id == id then 1 else 0)
  {
    assert (log + [entry])[..|log|] == log;
  }

  lemma SettleKeepsExactlyOnce(r: Registry, id: nat, outcome: Outcome)
    requires ExactlyOnce(r) && id in r.pending
    ensures ExactlyOnce(SettleId(r, id, outcome))
    ensures Times(SettleId(r, id, outcome).log, id) == 1
  {
    var t := SettleId(r, id, outcome);
    forall k: nat
      ensures Owed(t, k) + Times(t.log, k) == Owed(r, k) + Times(r.log, k)
    {
      TimesAppend(r.log, Settled(id, outcome), k);
    }
  }

  lemma IssueKeepsExactlyOnce(r: Registry, name: string, sent: bool)
    requires ExactlyOnce(r)
    ensures ExactlyOnce(Issue(r, name, sent))
  {
    var issued := r.(nextId := r.nextId + 1, pending := r.pending[r.nextId := name]);
    assert Owed(r, r.nextId) == 0;
    forall k: nat
      ensures Owed(issued, k) + Times(issued.log, k) == if 1 <= k < issued.nextId then 1 else 0
    {
      assert k != r.nextId ==> Owed(issued, k) == Owed(r, k);
    }
    if !sent {
      SettleKeepsExactlyOnce(issued, r.nextId, SendFailed);
    }
  }

  lemma PendingWereIssued(r: Registry)
    requires ExactlyOnce(r)
    ensures forall k :: k in r.pending ==> 1 <= k < r.nextId
  {
    forall k | k in r.pending
      ensures 1 <= k < r.nextId
    {
      assert Owed(r, k) == 1;
    }
  }

  lemma {:induction false} RejectFromKeepsExactlyOnce(r: Registry, id: nat, reason: SessionFailure)
    requires ExactlyOnce(r)
    requires forall k :: k in r.pending ==> id <= k
    ensures ExactlyOnce(RejectFrom(r, id, reason))
    ensures RejectFrom(r, id, reason).pending == map[]
    ensures RejectFrom(r, id, reason).nextId == r.nextId
    decreases r.nextId - id
  {
    if id >= r.nextId {
      PendingWereIssued(r);
      assert r.pending == map[];
    } else {
      if id in r.pending {
        SettleKeepsExactlyOnce(r, id, SessionFailed(reason));
      }
      RejectFromKeepsExactlyOnce(if id in r.pending then SettleId(r, id, SessionFailed(reason)) else r, id + 1, reason);
    }
  }

  // ---------------------------------------------------------------- the session

  datatype Session = Session(closed: bool, registry: Registry)

  const OPEN := Session(false, EMPTY)

  /** What the socket delivers; an id no request can have, such as a fraction, counts as none. */
  datatype Incoming = NotText | BrokenJson | NotAnObject | NoId | Answer(id: nat, reply: Reply)

  datatype Event =
    | Request(name: string, sent: bool)
    | Message(incoming: Incoming)
    | SocketCloses
    | SocketErrors
    | Dispose
    | TimerFires(id: nat)

  function Closing(s: Session, reason: SessionFailure): Session {
    if s.closed then s else Session(true, RejectFrom(s.registry, 1, reason))
  }

  function Step(s: Session, e: Event): Session {
    match e
    case Request(name, sent) => if s.closed then s else s.(registry := Issue(s.registry, name, sent))
    case Message(incoming) =>
      if s.closed then s
      else
        (match incoming
         case BrokenJson => Closing(s, InvalidJson)
         case Answer(id, reply) => s.(registry := Deliver(s.registry, id, reply))
         case _ => s)
    case SocketCloses => Closing(s, SocketClosed)
    case SocketErrors => Closing(s, SocketError)
    case Dispose => Closing(s, Disposed)
    case TimerFires(id) => s.(registry := Expire(s.registry, id))
  }

  function Run(s: Session, events: seq<Event>): Session
    decreases |events|
  {
    if events == [] then s else Run(Step(s, events[0]), events[1..])
  }

  ghost predicate Inv(s: Session) {
    ExactlyOnce(s.registry) && (s.closed ==> s.registry.pending == map[])
  }

  lemma FailKeepsInv(s: Session, reason: SessionFailure)
    requires Inv(s)
    ensures Inv(Closing(s, reason)) && Closing(s, reason).closed
    ensures Closing(s, reason).registry.nextId == s.registry.nextId
  {
    PendingWereIssued(s.registry);
    RejectFromKeepsExactlyOnce(s.registry, 1, reason);
  }

  lemma StepKeepsInv(s: Session, e: Event)
    requires Inv(s)
    ensures Inv(Step(s, e))
    ensures s.closed ==> Step(s, e) == s
    ensures s.registry.nextId <= Step(s, e).registry.nextId
  {
    match e {
      case Request(name, sent) => IssueKeepsExactlyOnce(s.registry, name, sent);
      case Message(incoming) =>
        if incoming.Answer? && incoming.id in s.registry.pending {
          SettleKeepsExactlyOnce(s.registry, incoming.id,
                                 ReplyOutcome(s.registry.pending[incoming.id], incoming.reply));
        }
        FailKeepsInv(s, InvalidJson);
      case SocketCloses => FailKeepsInv(s, SocketClosed);
      case SocketErrors => FailKeepsInv(s, SocketError);
      case Dispose => FailKeepsInv(s, Disposed);
      case TimerFires(id) =>
        if id in s.registry.pending {
          SettleKeepsExactlyOnce(s.registry, id, TimedOut(s.registry.pending[id]));
        }
    }
  }

  /**
    * Over every run: each issued request is pending or has been settled exactly once, ids only
    * grow, and a closed session has nothing pending and never changes again.
    */
  lemma {:induction false} RunKeepsInv(s: Session, events: seq<Event>)
    requires Inv(s)
    ensures Inv(Run(s, events))
    ensures s.closed ==> Run(s, events) == s
    ensures s.registry.nextId <= Run(s, events).registry.nextId
    decreases |events|
  {
    if events != [] {
      StepKeepsInv(s, events[0]);
      RunKeepsInv(Step(s, events[0]), events[1..]);
    }
  }

  /** A message for an id that is not pending, late or unknown, changes nothing. */
  lemma StrayMessageChangesNothing(s: Session, id: nat, reply: Reply)
    requires id !in s.registry.pending
    ensures Step(s, Message(Answer(id, reply))) == s
    ensures Step(s, TimerFires(id)) == s
  {
  }

  /** A request takes an id no request had before it, and it is the only new one. */
  lemma RequestTakesNewId(s: Session, name: string, sent: bool)
    requires Inv(s) && !s.closed
    ensures var t := Step(s, Request(name, sent));
            var id := s.registry.nextId;
            && t.registry.nextId == id + 1
            && id !in s.registry.pending && Times(s.registry.log, id) == 0
            && (if sent then t.registry.pending == s.registry.pending[id := name] && t.registry.log == s.registry.log
                else id !in t.registry.pending && t.registry.log == s.registry.log + [Settled(id, SendFailed)])
  {
    assert Owed(s.registry, s.registry.nextId) + Times(s.registry.log, s.registry.nextId) == 0;
  }

  predicate Ends(e: Event, id: nat) {
    || e == TimerFires(id)
    || e.SocketCloses? || e.SocketErrors? || e.Dispose? || e == Message(BrokenJson)
    || (e.Message? && e.incoming.Answer? && e.incoming.id == id)
  }

  /** Once issued, an id can only leave the pending map, and it does at the first event that ends it. */
  lemma StepSettles(s: Session, e: Event, id: nat)
    requires Inv(s) && 1 <= id < s.registry.nextId
    ensures id !in s.registry.pending || Ends(e, id) ==> id !in Step(s, e).registry.pending
  {
    StepKeepsInv(s, e);
    match e {
      case SocketCloses => FailKeepsInv(s, SocketClosed);
      case SocketErrors => FailKeepsInv(s, SocketError);
      case Dispose => FailKeepsInv(s, Disposed);
      case Message(incoming) => FailKeepsInv(s, InvalidJson);
      case _ =>
    }
  }

  /** A reply, or a timer, settles its own request as it promises and leaves every other one as it was. */
  lemma SettlesOnlyItsOwn(s: Session, e: Event, id: nat, outcome: Outcome, other: nat)
    requires !s.closed && id in s.registry.pending && other != id
    requires e.TimerFires? || (e.Message? && e.incoming.Answer?)
    requires Promises(e, id, s.registry.pending[id], outcome)
    ensures var t := Step(s, e);
            && t.registry.log == s.registry.log + [Settled(id, outcome)] && id !in t.registry.pending
            && Owed(t.registry, other) == Owed(s.registry, other)
            && Times(t.registry.log, other) == Times(s.registry.log, other)
  {
    TimesAppend(s.registry.log, Settled(id, outcome), other);
  }

  /** Every issued request settles exactly once in every run in which its timer fires or the session ends. */
  lemma {:induction false} IssuedRequestSettlesOnce(s: Session, events: seq<Event>, id: nat)
    requires Inv(s) && 1 <= id < s.registry.nextId
    requires id !in s.registry.pending || exists i :: 0 <= i < |events| && Ends(events[i], id)
    ensures id !in Run(s, events).registry.pending && Times(Run(s, events).registry.log, id) == 1
    decreases |events|
  {
    if events == [] {
      assert Owed(s.registry, id) + Times(s.registry.log, id) == 1;
    } else {
      StepKeepsInv(s, events[0]);
      StepSettles(s, events[0], id);
      if id in Step(s, events[0]).registry.pending {
        var i :| 0 <= i < |events| && Ends(events[i], id);
        assert events[1..][i - 1] == events[i];
      }
      IssuedRequestSettlesOnce(Step(s, events[0]), events[1..], id);
    }
  }

  // ---------------------------------------------------------------- how a request settles

  /** What an event that ends a request named `name` does to it. */
  ghost predicate Promises(e: Event, id: nat, name: string, outcome: Outcome) {
    match e
    case TimerFires(i) => i == id && outcome == TimedOut(name)
    case SocketCloses => outcome == SessionFailed(SocketClosed)
    case SocketErrors => outcome == SessionFailed(SocketError)
    case Dispose => outcome == SessionFailed(Disposed)
    case Message(incoming) =>
      (match incoming
       case BrokenJson => outcome == SessionFailed(InvalidJson)
       case Answer(i, reply) =>
         i == id &&
         (match reply
          case ResultReply(result) => outcome == Resolved(result)
          case ErrorReply(code, message) => outcome == Failed(name, code, message))
       case _ => false)
    case Request(_, _) => false
  }

  lemma {:induction false} RejectFromSettles(r: Registry, from: nat, reason: SessionFailure, id: nat)
    requires id in r.pending && from <= id < r.nextId
    ensures Settled(id, SessionFailed(reason)) in RejectFrom(r, from, reason).log
    decreases r.nextId - from
  {
    var next := if from in r.pending then SettleId(r, from, SessionFailed(reason)) else r;
    if from == id {
      assert next.log[|r.log|] == Settled(id, SessionFailed(reason));
      RejectFromKeepsLog(next, from + 1, reason);
    } else {
      RejectFromSettles(next, from + 1, reason, id);
    }
  }

  lemma {:induction false} RejectFromKeepsLog(r: Registry, from: nat, reason: SessionFailure)
    ensures r.log <= RejectFrom(r, from, reason).log
    decreases r.nextId - from
  {
    if from < r.nextId {
      var next := if from in r.pending then SettleId(r, from, SessionFailed(reason)) else r;
      assert r.log <= next.log;
      RejectFromKeepsLog(next, from + 1, reason);
    }
  }

  /** Closing settles every pending request with the reason of that closing. */
  lemma ClosingSettles(s: Session, reason: SessionFailure, id: nat)
    requires Inv(s) && !s.closed && id in s.registry.pending
    ensures Settled(id, SessionFailed(reason)) in Closing(s, reason).registry.log
  {
    PendingWereIssued(s.registry);
    RejectFromSettles(s.registry, 1, reason, id);
  }

  /** What was settled stays settled as it was. */
  lemma StepKeepsLog(s: Session, e: Event)
    ensures s.registry.log <= Step(s, e).registry.log
  {
    RejectFromKeepsLog(s.registry, 1, InvalidJson);
    RejectFromKeepsLog(s.registry, 1, SocketClosed);
    RejectFromKeepsLog(s.registry, 1, SocketError);
    RejectFromKeepsLog(s.registry, 1, Disposed);
  }

  lemma {:induction false} RunKeepsLog(s: Session, events: seq<Event>)
    ensures s.registry.log <= Run(s, events).registry.log
    decreases |events|
  {
    if events != [] {
      StepKeepsLog(s, events[0]);
      RunKeepsLog(Step(s, events[0]), events[1..]);
    }
  }

  lemma LastIsIn(log: seq<Settled>, entry: Settled)
    ensures entry in log + [entry]
  {
    assert (log + [entry])[|log|] == entry;
  }

  /** The event that ends a pending request settles it as that event promises. */
  lemma EndingSettles(s: Session, e: Event, id: nat, outcome: Outcome)
    requires Inv(s) && !s.closed && id in s.registry.pending && Promises(e, id, s.registry.pending[id], outcome)
    ensures Settled(id, outcome) in Step(s, e).registry.log
  {
    match e {
      case SocketCloses => ClosingSettles(s, SocketClosed, id);
      case SocketErrors => ClosingSettles(s, SocketError, id);
      case Dispose => ClosingSettles(s, Disposed, id);
      case Message(incoming) =>
        if incoming == BrokenJson {
          ClosingSettles(s, InvalidJson, id);
        } else {
          LastIsIn(s.registry.log, Settled(id, outcome));
        }
      case TimerFires(_) => LastIsIn(s.registry.log, Settled(id, outcome));
    }
  }

  /** Until an event ends it, a pending request stays pending under its name, and the session open. */
  lemma OtherEventKeepsPending(s: Session, e: Event, id: nat)
    requires Inv(s) && !s.closed && id in s.registry.pending && !Ends(e, id)
    ensures var t := Step(s, e);
            !t.closed && id in t.registry.pending && t.registry.pending[id] == s.registry.pending[id]
  {
    PendingWereIssued(s.registry);
  }

  lemma {:induction false} StaysPending(s: Session, events: seq<Event>, id: nat)
    requires Inv(s) && !s.closed && id in s.registry.pending && forall e :: e in events ==> !Ends(e, id)
    ensures var t := Run(s, events);
            Inv(t) && !t.closed && id in t.registry.pending && t.registry.pending[id] == s.registry.pending[id]
    decreases |events|
  {
    if events != [] {
      StepKeepsInv(s, events[0]);
      OtherEventKeepsPending(s, events[0], id);
      StaysPending(Step(s, events[0]), events[1..], id);
    }
  }

  /**
    * Over every run: a request settles as its first ending event promises, a result reply with
    * that reply's value, an error reply with its code and message, and nothing later settles it
    * again.
    */
  lemma FirstEndingDecides(s: Session, before: seq<Event>, e: Event, after: seq<Event>, id: nat, outcome: Outcome)
    requires Inv(s) && !s.closed && id in s.registry.pending && forall x :: x in before ==> !Ends(x, id)
    requires Promises(e, id, s.registry.pending[id], outcome)
    ensures var t := Run(Step(Run(s, before), e), after);
            Settled(id, outcome) in t.registry.log && Times(t.registry.log, id) == 1
  {
    StaysPending(s, before, id);
    var u := Run(s, before);
    EndingSettles(u, e, id, outcome);
    PendingWereIssued(u.registry);
    StepKeepsInv(u, e);
    StepSettles(u, e, id);
    RunKeepsLog(Step(u, e), after);
    IssuedRequestSettlesOnce(Step(u, e), after, id);
  }

  /** What carries no answer changes nothing: other frames, other values, messages without an id. */
  lemma NoAnswerChangesNothing(s: Session, incoming: Incoming)
    requires incoming == NotText || incoming == NotAnObject || incoming == NoId
    ensures Step(s, Message(incoming)) == s
  {
  }

  // ---------------------------------------------------------------- the objects

  class CdpRequestRegistry {
    var nextId: nat
    var pending: map<nat, string>
    ghost var log: seq<Settled>

    ghost function Model(): Registry
      reads this
    {
      Registry(nextId, pending, log)
    }

    constructor ()
      ensures Model() == EMPTY
    {
      nextId := 1;
      pending := map[];
      log := [];
    }

    /** `timeoutMs` is none when it is not a finite number; `sent` tells whether `send` returned. */
    method Request(name: string, timeoutMs: Option<real>, sent: bool) returns (id: Option<nat>)
      modifies this
      ensures id.Some? <==> timeoutMs.Some? && timeoutMs.value > 0.0
      ensures id.None? ==> Model() == old(Model())
      ensures id.Some? ==> id.value == old(nextId) && Model() == Issue(old(Model()), name, sent)
    {
      if timeoutMs.None? || timeoutMs.value <= 0.0 {
        return None;
      }
      var taken := nextId;
      nextId := nextId + 1;
      pending := pending[taken := name];
      if !sent {
        pending := pending - {taken};
        log := log + [Settled(taken, SendFailed)];
      }
      return Some(taken);
    }

    method TimerFires(id: nat)
      modifies this
      ensures Model() == Expire(old(Model()), id)
    {
      if id !in pending {
        return;
      }
      log := log + [Settled(id, TimedOut(pending[id]))];
      pending := pending - {id};
    }

    method ResolveMessage(id: nat, reply: Reply) returns (known: bool)
      modifies this
      ensures Model() == Deliver(old(Model()), id, reply)
      ensures known == (id in old(pending))
    {
      if id !in pending {
        return false;
      }
      var name := pending[id];
      pending := pending - {id};
      log := log + [Settled(id, ReplyOutcome(name, reply))];
      return true;
    }

    method RejectAll(reason: SessionFailure)
      modifies this
      ensures Model() == RejectFrom(old(Model()), 1, reason)
    {
      var id := 1;
      while id < nextId
        invariant RejectFrom(Model(), id, reason) == RejectFrom(old(Model()), 1, reason)
      {
        if id in pending {
          pending := pending - {id};
          log := log + [Settled(id, SessionFailed(reason))];
        }
        id := id + 1;
      }
    }
  }

  class EvidenceCdpSession {
    const registry: CdpRequestRegistry
    const requestTimeoutMs: real
    var closed: bool

    ghost function Model(): Session
      reads this, registry
    {
      Session(closed, registry.Model())
    }

    constructor (requestTimeoutMs: real)
      requires requestTimeoutMs > 0.0
      ensures Model() == OPEN && this.requestTimeoutMs == requestTimeoutMs && fresh(registry)
    {
      var made := new CdpRequestRegistry();
      registry := made;
      this.requestTimeoutMs := requestTimeoutMs;
      closed := false;
    }

    method Request(name: string, sent: bool) returns (id: Option<nat>)
      requires requestTimeoutMs > 0.0
      modifies registry
      ensures Model() == Step(old(Model()), Event.Request(name, sent))
      ensures id == if closed then None else Some(old(registry.nextId))
    {
      if closed {
        return None;
      }
      id := registry.Request(name, Some(requestTimeoutMs), sent);
    }

    method OnMessage(incoming: Incoming)
      modifies this, registry
      ensures Model() == Step(old(Model()), Message(incoming))
    {
      if closed {
        return;
      }
      match incoming
      case BrokenJson => Fail(InvalidJson);
      case Answer(id, reply) => var known := registry.ResolveMessage(id, reply);
      case _ =>
    }

    method OnClose()
      modifies this, registry
      ensures Model() == Step(old(Model()), SocketCloses)
    {
      Fail(SocketClosed);
    }

    method OnError()
      modifies this, registry
      ensures Model() == Step(old(Model()), SocketErrors)
    {
      Fail(SocketError);
    }

    method Dispose()
      modifies this, registry
      ensures Model() == Step(old(Model()), Event.Dispose)
    {
      Fail(Disposed);
    }

    method Fail(reason: SessionFailure)
      modifies this, registry
      ensures Model() == Closing(old(Model()), reason)
    {
      if closed {
        return;
      }
      closed := true;
      registry.RejectAll(reason);
    }
  }

  /** A session over a socket, unless its request timeout is not a positive number. */
  method OpenSession(requestTimeoutMs: Option<real>) returns (session: Option<EvidenceCdpSession>)
    ensures session.Some? <==> requestTimeoutMs.Some? && requestTimeoutMs.value > 0.0
    ensures session.Some? ==> fresh(session.value) && fresh(session.value.registry)
    ensures session.Some? ==> session.value.Model() == OPEN
  {
    if requestTimeoutMs.None? || requestTimeoutMs.value <= 0.0 {
      return None;
    }
    var made := new EvidenceCdpSession(requestTimeoutMs.value);
    return Some(made);
  }
}
