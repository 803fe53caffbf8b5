/**
  * The pool rotation machine (gui/src/codex-pool-rotation-machine.ts): the reducer, the plan
  * of a sticky-limit commit, and the read/write protocol `usePoolRotation` runs around it
  * against a listener that stores the rotation.
  */
module PoolRotation {
  import opened Options
  import opened PoolSettings

  // ---------------------------------------------------------------- the reducer

  datatype RotationError = InvalidSticky | WriteFailed

  datatype Machine = Machine(
    confirmed: Rotation,
    visible: Rotation,
    stickyDraft: string,
    hydrated: bool,
    saving: bool,
    readFailed: bool,
    error: Option<RotationError>,
    revision: nat,
    heldRead: bool)

  function LimitText(r: Rotation): string {
    if r.stickyLimit < 0 then "-" + DecimalText(-r.stickyLimit) else DecimalText(r.stickyLimit)
  }

  const INITIAL := Machine(
    DEFAULT_ROTATION, DEFAULT_ROTATION, LimitText(DEFAULT_ROTATION), false, false, false, None, 0, false)

  datatype MachineEvent =
    | ServerValuesArrived(rotation: Option<Rotation>, startedAtRevision: nat)
    | ServerReadFailed
    | StrategyChosen(strategy: Strategy)
    | ResetOrderChosen(resetOrder: ResetOrder)
    | StickyDraftTyped(text: string)
    | StickyDraftRejected
    | WriteStarted
    | WriteAccepted(stored: Rotation)
    | WriteRejected
    | HeldReadConsumed

  predicate ControlsLocked(m: Machine) {
    m.saving || m.readFailed || !m.hydrated
  }

  function Adopt(m: Machine, r: Rotation): Machine {
    m.(confirmed := r, visible := r, stickyDraft := LimitText(r), hydrated := true, readFailed := false, error := None)
  }

  function Reduce(m: Machine, e: MachineEvent): Machine {
    match e
    case ServerValuesArrived(rotation, startedAtRevision) =>
      if startedAtRevision != m.revision then m
      else if rotation.None? then m
      else if m.saving then m.(heldRead := true)
      else Adopt(m, rotation.value)
    case ServerReadFailed => if m.hydrated then m else m.(readFailed := true)
    case StrategyChosen(strategy) => m.(visible := m.visible.(strategy := strategy))
    case ResetOrderChosen(resetOrder) => m.(visible := m.visible.(resetOrder := resetOrder))
    case StickyDraftTyped(text) => m.(stickyDraft := text)
    case StickyDraftRejected => m.(stickyDraft := LimitText(m.visible), error := Some(InvalidSticky))
    case WriteStarted => if m.saving then m else m.(saving := true, error := None, revision := m.revision + 1)
    case WriteAccepted(stored) => Adopt(m, stored).(saving := false, revision := m.revision + 1)
    case WriteRejected =>
      m.(visible := m.confirmed, stickyDraft := LimitText(m.confirmed), saving := false,
         error := Some(WriteFailed), revision := m.revision + 1)
    case HeldReadConsumed => if m.heldRead then m.(heldRead := false) else m
  }

  datatype StickyCommit = Invalid | RewriteDraft(text: string) | WriteIt(rotation: Rotation)

  function PlanStickyCommit(m: Machine, text: string): StickyCommit {
    var parsed := ParseDraft(text);
    if parsed.None? then Invalid
    else if parsed.value == m.visible.stickyLimit then RewriteDraft(DecimalText(parsed.value))
    else WriteIt(m.visible.(stickyLimit := parsed.value))
  }

  // ---------------------------------------------------------------- the protocol

  /** An answer of the listener, and how many writes it had applied when it gave it. */
  datatype Sample = Sample(body: Body, at: nat)

  /** A read in flight: the revision it carries, and the answer once the listener has given it. */
  datatype Read = Read(stamp: nat, answer: Option<Sample>)

  /** The write in flight: what it asks for, what the listener stored once it did. */
  datatype Write = Write(requested: Rotation, stored: Option<Rotation>)

  /** `applied` counts the writes the listener stored; `last` is the payload the pool remembers. */
  datatype System = System(
    machine: Machine,
    server: Rotation,
    applied: nat,
    inFlight: map<nat, Read>,
    nextRead: nat,
    write: Option<Write>,
    last: Option<Sample>)

  datatype Event =
    | StartRead(stamp: nat)
    | AnswerRead(id: nat, body: Body)
    | ReadArrives(id: nat)
    | ReadFails(id: nat)
    | PoolRemembers(id: nat)
    | Seed(stamp: nat)
    | ChooseStrategy(strategy: Strategy)
    | ChooseResetOrder(resetOrder: ResetOrder)
    | TypeSticky(text: string)
    | CommitSticky(text: string)
    | ServerStores(rotation: Rotation)
    | WriteAnswered(body: Body)
    | WriteRefused
    | WriteAnswerLost
    | ReplayHeldRead(stamp: nat)

  /**
    * Reads are stamped from a mirror of the revision that may lag behind it. The listener
    * answers a read with the rotation it stores at that moment, at any time before the answer
    * arrives, and reports truthfully what a write stored. `WriteAnswerLost` is a write the
    * listener did apply although its answer never reached the client. The pool may remember
    * any answer it has, and a card may be seeded from what it remembers at any time.
    */
  ghost predicate Enabled(s: System, e: Event) {
    match e
    case StartRead(stamp) => stamp <= s.machine.revision
    case AnswerRead(id, body) => id in s.inFlight && s.inFlight[id].answer.None? && Reports(body, s.server)
    case ReadArrives(id) => id in s.inFlight && s.inFlight[id].answer.Some?
    case ReadFails(id) => id in s.inFlight
    case PoolRemembers(id) => id in s.inFlight && s.inFlight[id].answer.Some?
    case Seed(stamp) => stamp <= s.machine.revision
    case ServerStores(rotation) => s.write.Some? && s.write.value.stored.None? && ValidRotation(rotation)
    case WriteAnswered(body) =>
      s.write.Some? && s.write.value.stored.Some?
      && Truthful(body, s.write.value.requested, s.write.value.stored.value)
    case WriteRefused => s.write.Some? && s.write.value.stored.None?
    case WriteAnswerLost => s.write.Some? && s.write.value.stored.Some?
    case ReplayHeldRead(stamp) => s.machine.heldRead && !s.machine.saving && stamp <= s.machine.revision
    case _ => true
  }

  function OpenRead(s: System, stamp: nat): System {
    s.(inFlight := s.inFlight[s.nextRead := Read(stamp, None)], nextRead := s.nextRead + 1)
  }

  /** `write`: refused while another is in flight. */
  function StartWrite(s: System, rotation: Rotation): System {
    if s.machine.saving then s
    else s.(machine := Reduce(s.machine, WriteStarted), write := Some(Write(rotation, None)))
  }

  /** `adopt`: a payload without rotation is passed over. */
  function AdoptBody(m: Machine, body: Body, stamp: nat): Machine {
    var rotation := RotationFromActive(body);
    if rotation.None? then m else Reduce(m, ServerValuesArrived(rotation, stamp))
  }

  function Choose(s: System, chosen: MachineEvent, rotation: Rotation): System {
    StartWrite(s.(machine := Reduce(s.machine, chosen)), rotation)
  }

  function Step(s: System, e: Event): System
    requires Enabled(s, e)
  {
    var m := s.machine;
    match e
    case StartRead(stamp) => OpenRead(s, stamp)
    case AnswerRead(id, body) => s.(inFlight := s.inFlight[id := s.inFlight[id].(answer := Some(Sample(body, s.applied)))])
    case ReadArrives(id) =>
      s.(inFlight := s.inFlight - {id},
         machine := AdoptBody(m, s.inFlight[id].answer.value.body, s.inFlight[id].stamp))
    case ReadFails(id) => s.(inFlight := s.inFlight - {id}, machine := Reduce(m, ServerReadFailed))
    case PoolRemembers(id) => s.(last := s.inFlight[id].answer)
    case Seed(stamp) => if s.last.None? then s else s.(machine := AdoptBody(m, s.last.value.body, stamp))
    case ChooseStrategy(strategy) =>
      if ControlsLocked(m) || strategy == m.visible.strategy then s
      else Choose(s, StrategyChosen(strategy), m.visible.(strategy := strategy))
    case ChooseResetOrder(resetOrder) =>
      if ControlsLocked(m) || resetOrder == m.visible.resetOrder then s
      else Choose(s, ResetOrderChosen(resetOrder), m.visible.(resetOrder := resetOrder))
    case TypeSticky(text) => s.(machine := Reduce(m, StickyDraftTyped(text)))
    case CommitSticky(text) =>
      if ControlsLocked(m) then s
      else
        (match PlanStickyCommit(m, text)
         case Invalid => s.(machine := Reduce(m, StickyDraftRejected))
         case RewriteDraft(canonical) => s.(machine := Reduce(m, StickyDraftTyped(canonical)))
         case WriteIt(rotation) => StartWrite(s, rotation))
    case ServerStores(rotation) =>
      s.(server := rotation, applied := s.applied + 1, write := Some(s.write.value.(stored := Some(rotation))))
    case WriteAnswered(body) =>
      s.(write := None, machine := Reduce(m, WriteAccepted(StoredStrategy(body, s.write.value.requested))))
    case WriteRefused => s.(write := None, machine := Reduce(m, WriteRejected))
    case WriteAnswerLost => s.(write := None, machine := Reduce(m, WriteRejected))
    case ReplayHeldRead(stamp) => OpenRead(s.(machine := Reduce(m, HeldReadConsumed)), stamp)
  }

  ghost predicate ValidRun(s: System, events: seq<Event>)
    decreases |events|
  {
    events != [] ==> Enabled(s, events[0]) && ValidRun(Step(s, events[0]), events[1..])
  }

  ghost function Run(s: System, events: seq<Event>): System
    requires ValidRun(s, events)
    decreases |events|
  {
    if events == [] then s else Run(Step(s, events[0]), events[1..])
  }

  // ---------------------------------------------------------------- what every step keeps

  ghost predicate MachineInv(s: System) {
    var m := s.machine;
    && (m.saving <==> m.revision % 2 == 1)
    && (m.saving <==> s.write.Some?)
    && (!m.saving ==> m.visible == m.confirmed)
    && (m.saving ==> m.hydrated)
    && ValidRotation(s.server)
    && (s.write.Some? && s.write.value.stored.Some? ==> s.server == s.write.value.stored.value)
  }

  /** A read that would be adopted on arrival carries what the listener stores now. */
  ghost predicate ReadInv(s: System, r: Read) {
    && r.stamp <= s.machine.revision
    && (r.answer.Some? && r.stamp == s.machine.revision && !s.machine.saving ==> Reports(r.answer.value.body, s.server))
  }

  ghost predicate ReadsInv(s: System) {
    forall id :: id in s.inFlight ==> ReadInv(s, s.inFlight[id])
  }

  /** An answer given since the last write was applied reports what the listener stores now. */
  ghost predicate SampleInv(s: System, x: Sample) {
    x.at <= s.applied && (x.at == s.applied ==> Reports(x.body, s.server))
  }

  ghost predicate SamplesInv(s: System) {
    && (s.last.Some? ==> SampleInv(s, s.last.value))
    && forall id :: id in s.inFlight && s.inFlight[id].answer.Some? ==> SampleInv(s, s.inFlight[id].answer.value)
  }

  /** Holds in every run, whatever happens to the answers and whatever is seeded. */
  ghost predicate BaseInv(s: System) {
    MachineInv(s) && ReadsInv(s) && SamplesInv(s)
  }

  /** The controls show what the listener stores, once read and between writes. */
  ghost predicate Agrees(s: System) {
    s.machine.hydrated && !s.machine.saving ==> s.machine.confirmed == s.server
  }

  /** Until the listener applies the write in flight it stores the confirmed values. */
  ghost predicate WriteInv(s: System) {
    s.write.Some? && s.write.value.stored.None? ==> s.machine.confirmed == s.server
  }

  ghost predicate Inv(s: System) {
    BaseInv(s) && Agrees(s) && WriteInv(s)
  }

  predicate IsGesture(e: Event) {
    e.ChooseStrategy? || e.ChooseResetOrder? || e.TypeSticky? || e.CommitSticky?
  }

  predicate IsSettlement(e: Event) {
    e.WriteAnswered? || e.WriteRefused? || e.WriteAnswerLost?
  }

  /** A gesture either starts a write from the values on screen or changes only the draft. */
  lemma GestureEffect(s: System, e: Event)
    requires MachineInv(s) && IsGesture(e) && Enabled(s, e)
    ensures var t := Step(s, e);
            && t.server == s.server && t.applied == s.applied && t.last == s.last && t.inFlight == s.inFlight
            && t.machine.confirmed == s.machine.confirmed
            && t.machine.hydrated == s.machine.hydrated && t.machine.heldRead == s.machine.heldRead
            && MachineInv(t)
            && if t.machine.saving && !s.machine.saving then
                 && s.machine.hydrated && t.machine.revision == s.machine.revision + 1
                 && t.write.Some? && t.write.value.stored.None?
               else
                 t.machine.revision == s.machine.revision && t.machine.saving == s.machine.saving
                 && t.machine.visible == s.machine.visible && t.write == s.write
  {
  }

  lemma GestureKeepsReads(s: System, e: Event)
    requires MachineInv(s) && ReadsInv(s) && IsGesture(e) && Enabled(s, e)
    ensures MachineInv(Step(s, e)) && ReadsInv(Step(s, e))
  {
    GestureEffect(s, e);
    var t := Step(s, e);
    forall id | id in t.inFlight
      ensures ReadInv(t, t.inFlight[id])
    {
      assert ReadInv(s, s.inFlight[id]);
    }
  }

  /** A settled write moves the revision past every read in flight. */
  lemma SettlementKeepsReads(s: System, e: Event)
    requires MachineInv(s) && ReadsInv(s) && IsSettlement(e) && Enabled(s, e)
    ensures MachineInv(Step(s, e)) && ReadsInv(Step(s, e))
  {
    var t := Step(s, e);
    forall id | id in t.inFlight
      ensures ReadInv(t, t.inFlight[id])
    {
      assert ReadInv(s, s.inFlight[id]);
    }
  }

  lemma ReadTrafficKeepsReads(s: System, e: Event)
    requires MachineInv(s) && ReadsInv(s) && Enabled(s, e) && !IsGesture(e) && !IsSettlement(e)
    ensures MachineInv(Step(s, e)) && ReadsInv(Step(s, e))
  {
  }

  /** Only the listener's own steps, the pool's memory and the arrival of reads touch the answers. */
  lemma StepKeepsSamples(s: System, e: Event)
    requires MachineInv(s) && SamplesInv(s) && Enabled(s, e)
    ensures SamplesInv(Step(s, e))
    ensures !e.ServerStores? ==> Step(s, e).server == s.server && Step(s, e).applied == s.applied
  {
    if IsGesture(e) {
      GestureEffect(s, e);
    }
  }

  lemma StepKeepsBaseInv(s: System, e: Event)
    requires BaseInv(s) && Enabled(s, e)
    ensures BaseInv(Step(s, e))
  {
    StepKeepsSamples(s, e);
    if IsGesture(e) {
      GestureKeepsReads(s, e);
    } else if IsSettlement(e) {
      SettlementKeepsReads(s, e);
    } else {
      ReadTrafficKeepsReads(s, e);
    }
  }

  predicate CurrentBetweenWrites(s: System, e: Event) {
    e.ReadArrives? && e.id in s.inFlight && s.inFlight[e.id].stamp == s.machine.revision && !s.machine.saving
  }

  /** Whatever was lost before, a read that is adopted brings the controls back to the stored values. */
  lemma AdoptedReadAgrees(s: System, e: Event)
    requires BaseInv(s) && Enabled(s, e) && CurrentBetweenWrites(s, e)
    ensures var t := Step(s, e);
            Agrees(t) && t.machine.hydrated && t.machine.confirmed == t.machine.visible == s.server
  {
    assert ReadInv(s, s.inFlight[e.id]);
    ReadBack(s.inFlight[e.id].answer.value.body, s.server);
  }

  /** The seed would be adopted. */
  predicate SeedIsAdopted(s: System, e: Event) {
    e.Seed? && s.last.Some? && e.stamp == s.machine.revision && !s.machine.saving
  }

  /** The seed would be adopted although a write was applied since the pool sampled it. */
  predicate StaleSeed(s: System, e: Event) {
    SeedIsAdopted(s, e) && s.last.value.at < s.applied
  }

  /** A seed sampled since the last applied write brings the controls to the stored values. */
  lemma FreshSeedAgrees(s: System, e: Event)
    requires BaseInv(s) && Enabled(s, e) && SeedIsAdopted(s, e) && !StaleSeed(s, e)
    ensures var t := Step(s, e);
            Agrees(t) && t.machine.hydrated && t.machine.confirmed == t.machine.visible == s.server
  {
    ReadBack(s.last.value.body, s.server);
  }

  lemma StepKeepsAgreement(s: System, e: Event)
    requires Inv(s) && Enabled(s, e) && !e.WriteAnswerLost? && !StaleSeed(s, e)
    ensures Agrees(Step(s, e)) && WriteInv(Step(s, e))
  {
    if IsGesture(e) {
      GestureEffect(s, e);
    } else if CurrentBetweenWrites(s, e) {
      AdoptedReadAgrees(s, e);
    } else if SeedIsAdopted(s, e) {
      FreshSeedAgrees(s, e);
    } else if e.WriteAnswered? {
      StoredIsRead(e.body, s.write.value.requested, s.write.value.stored.value);
    }
  }

  // ---------------------------------------------------------------- client/server agreement

  /** No answer to a write is lost, and no seed is adopted that a write has outdated. */
  ghost predicate Undisturbed(s: System, events: seq<Event>)
    requires ValidRun(s, events)
    decreases |events|
  {
    events != [] ==>
      && !events[0].WriteAnswerLost? && !StaleSeed(s, events[0])
      && Undisturbed(Step(s, events[0]), events[1..])
  }

  /**
    * Over every interleaving of delayed, reordered and lagging-stamped reads with accepted and
    * refused writes and fresh seeds: saving holds exactly at odd revisions, and whenever the
    * controls are hydrated and no write is in flight they show exactly what the listener stores.
    */
  lemma {:induction false} AgreementOverRuns(s: System, events: seq<Event>)
    requires Inv(s) && ValidRun(s, events) && Undisturbed(s, events)
    ensures Inv(Run(s, events))
    ensures var t := Run(s, events);
            && (t.machine.saving <==> t.machine.revision % 2 == 1)
            && (t.machine.hydrated && !t.machine.saving ==> t.machine.visible == t.machine.confirmed == t.server)
    decreases |events|
  {
    if events != [] {
      StepKeepsBaseInv(s, events[0]);
      StepKeepsAgreement(s, events[0]);
      AgreementOverRuns(Step(s, events[0]), events[1..]);
    }
  }

  function Mounted(server: Rotation): System {
    System(INITIAL, server, 0, map[], 0, None, None)
  }

  lemma MountedHolds(server: Rotation)
    requires ValidRotation(server)
    ensures Inv(Mounted(server)) && RequestInv(Mounted(server)) && OneBehind(Mounted(server))
  {
  }

  lemma {:induction false} BaseInvOverRuns(s: System, events: seq<Event>)
    requires BaseInv(s) && ValidRun(s, events)
    ensures BaseInv(Run(s, events))
    decreases |events|
  {
    if events != [] {
      StepKeepsBaseInv(s, events[0]);
      BaseInvOverRuns(Step(s, events[0]), events[1..]);
    }
  }

  // ---------------------------------------------------------------- every write asks for a change

  /** The listener stores what it was asked to store. */
  predicate Obeys(s: System, e: Event) {
    e.ServerStores? ==> s.write.Some? && e.rotation == s.write.value.requested
  }

  ghost predicate Obedient(s: System, events: seq<Event>)
    requires ValidRun(s, events)
    decreases |events|
  {
    events != [] ==> Obeys(s, events[0]) && Obedient(Step(s, events[0]), events[1..])
  }

  /** The write in flight asks for something other than the confirmed values, and gets that or nothing. */
  ghost predicate RequestInv(s: System) {
    s.write.Some? ==>
      && s.write.value.requested != s.machine.confirmed
      && (s.write.value.stored.Some? ==> s.write.value.stored.value == s.write.value.requested)
  }

  lemma GestureAsksForChange(s: System, e: Event)
    requires MachineInv(s) && RequestInv(s) && IsGesture(e) && Enabled(s, e)
    ensures RequestInv(Step(s, e))
  {
  }

  lemma StepKeepsRequest(s: System, e: Event)
    requires MachineInv(s) && RequestInv(s) && Enabled(s, e) && Obeys(s, e)
    ensures RequestInv(Step(s, e))
  {
    if IsGesture(e) {
      GestureAsksForChange(s, e);
    }
  }

  lemma {:induction false} RequestOverRuns(s: System, events: seq<Event>)
    requires BaseInv(s) && RequestInv(s) && ValidRun(s, events) && Obedient(s, events)
    ensures BaseInv(Run(s, events)) && RequestInv(Run(s, events))
    decreases |events|
  {
    if events != [] {
      StepKeepsBaseInv(s, events[0]);
      StepKeepsRequest(s, events[0]);
      RequestOverRuns(Step(s, events[0]), events[1..]);
    }
  }

  // ---------------------------------------------------------------- lost answers

  /** The controls have been read, and their confirmed values are not what the listener stores. */
  predicate Astray(s: System) {
    s.machine.hydrated && s.machine.confirmed != s.server
  }

  /** Over every run against an obedient listener: losing the answer to an applied write always leads astray. */
  lemma LostAnswerLeadsAstray(s: System, events: seq<Event>)
    requires BaseInv(s) && RequestInv(s) && ValidRun(s, events) && Obedient(s, events)
    requires Enabled(Run(s, events), WriteAnswerLost)
    ensures var t := Step(Run(s, events), WriteAnswerLost);
            Astray(t) && !Agrees(t)
  {
    RequestOverRuns(s, events);
  }

  /** What brings the controls back: an adopted read, an answered write, or a fresh seed. */
  predicate Repairs(s: System, e: Event) {
    CurrentBetweenWrites(s, e) || e.WriteAnswered? || (SeedIsAdopted(s, e) && !StaleSeed(s, e))
  }

  lemma RepairAgrees(s: System, e: Event)
    requires BaseInv(s) && Enabled(s, e) && Repairs(s, e)
    ensures Inv(Step(s, e)) && !Astray(Step(s, e))
  {
    StepKeepsBaseInv(s, e);
    if CurrentBetweenWrites(s, e) {
      AdoptedReadAgrees(s, e);
    } else if SeedIsAdopted(s, e) {
      FreshSeedAgrees(s, e);
    } else {
      StoredIsRead(e.body, s.write.value.requested, s.write.value.stored.value);
    }
  }

  lemma UnrepairedStaysAstray(s: System, e: Event)
    requires BaseInv(s) && RequestInv(s) && Astray(s) && Enabled(s, e) && Obeys(s, e)
    requires !StaleSeed(s, e) && !Repairs(s, e)
    ensures Astray(Step(s, e))
  {
    if IsGesture(e) {
      GestureEffect(s, e);
    }
  }

  /** One step of controls that are astray: they come back exactly at a repair, and then fully. */
  lemma AstrayUntilRepaired(s: System, e: Event)
    requires BaseInv(s) && RequestInv(s) && Astray(s) && Enabled(s, e) && Obeys(s, e) && !StaleSeed(s, e)
    ensures Astray(Step(s, e)) <==> !Repairs(s, e)
    ensures Repairs(s, e) ==> Inv(Step(s, e))
  {
    if Repairs(s, e) {
      RepairAgrees(s, e);
    } else {
      UnrepairedStaysAstray(s, e);
    }
  }

  /** No event of the run repairs, and none is a seed a write has outdated. */
  ghost predicate Unrepaired(s: System, events: seq<Event>)
    requires ValidRun(s, events)
    decreases |events|
  {
    events != [] ==>
      && !Repairs(s, events[0]) && !StaleSeed(s, events[0])
      && Unrepaired(Step(s, events[0]), events[1..])
  }

  /**
    * Over every run: controls that are astray stay so through gestures, held and outdated reads,
    * refused writes and further lost answers, until the first repair, and that one restores the
    * whole agreement.
    */
  lemma {:induction false} AstrayOverRuns(s: System, events: seq<Event>, e: Event)
    requires BaseInv(s) && RequestInv(s) && Astray(s)
    requires ValidRun(s, events) && Obedient(s, events) && Unrepaired(s, events)
    requires Enabled(Run(s, events), e) && Obeys(Run(s, events), e) && !StaleSeed(Run(s, events), e)
    ensures Astray(Run(s, events))
    ensures Astray(Step(Run(s, events), e)) <==> !Repairs(Run(s, events), e)
    ensures Repairs(Run(s, events), e) ==> Inv(Step(Run(s, events), e))
    decreases |events|
  {
    if events == [] {
      AstrayUntilRepaired(s, e);
    } else {
      StepKeepsBaseInv(s, events[0]);
      StepKeepsRequest(s, events[0]);
      AstrayUntilRepaired(s, events[0]);
      AstrayOverRuns(Step(s, events[0]), events[1..], e);
    }
  }

  // ---------------------------------------------------------------- outdated seeds

  /** An answer given one applied write ago reports something else than the listener stores now. */
  ghost predicate OneBehindDiffers(s: System, x: Sample) {
    x.at + 1 == s.applied ==> RotationFromActive(x.body).Some? && RotationFromActive(x.body).value != s.server
  }

  ghost predicate OneBehind(s: System) {
    && (s.last.Some? ==> OneBehindDiffers(s, s.last.value))
    && forall id :: id in s.inFlight && s.inFlight[id].answer.Some? ==> OneBehindDiffers(s, s.inFlight[id].answer.value)
  }

  /** An obeyed write changes what is stored, so an answer given just before it is wrong after it. */
  lemma WriteOutdates(s: System, e: Event, x: Sample)
    requires Inv(s) && RequestInv(s) && Enabled(s, e) && e.ServerStores? && Obeys(s, e) && SampleInv(s, x)
    ensures OneBehindDiffers(Step(s, e), x)
  {
    if x.at == s.applied {
      ReadBack(x.body, s.server);
    }
  }

  lemma StoringKeepsOneBehind(s: System, e: Event)
    requires Inv(s) && RequestInv(s) && Enabled(s, e) && e.ServerStores? && Obeys(s, e)
    ensures OneBehind(Step(s, e))
  {
    var t := Step(s, e);
    if s.last.Some? {
      WriteOutdates(s, e, s.last.value);
    }
    forall id | id in t.inFlight && t.inFlight[id].answer.Some?
      ensures OneBehindDiffers(t, t.inFlight[id].answer.value)
    {
      WriteOutdates(s, e, s.inFlight[id].answer.value);
    }
  }

  lemma OtherStepKeepsOneBehind(s: System, e: Event)
    requires MachineInv(s) && SamplesInv(s) && OneBehind(s) && Enabled(s, e) && !e.ServerStores?
    ensures OneBehind(Step(s, e))
  {
    if IsGesture(e) {
      GestureEffect(s, e);
    }
  }

  lemma {:induction false} OneBehindOverRuns(s: System, events: seq<Event>)
    requires Inv(s) && RequestInv(s) && OneBehind(s)
    requires ValidRun(s, events) && Undisturbed(s, events) && Obedient(s, events)
    ensures Inv(Run(s, events)) && RequestInv(Run(s, events)) && OneBehind(Run(s, events))
    decreases |events|
  {
    if events != [] {
      var e := events[0];
      StepKeepsBaseInv(s, e);
      StepKeepsAgreement(s, e);
      StepKeepsRequest(s, e);
      if e.ServerStores? {
        StoringKeepsOneBehind(s, e);
      } else {
        OtherStepKeepsOneBehind(s, e);
      }
      OneBehindOverRuns(Step(s, e), events[1..]);
    }
  }

  /**
    * Over every undisturbed run against an obedient listener: adopting what the pool remembers
    * keeps the agreement if no write was applied since it was sampled, and breaks it if exactly
    * one was.
    */
  lemma SeedAgreesWhileFresh(s: System, events: seq<Event>, seed: Event)
    requires Inv(s) && RequestInv(s) && OneBehind(s)
    requires ValidRun(s, events) && Undisturbed(s, events) && Obedient(s, events)
    requires SeedIsAdopted(Run(s, events), seed)
    ensures var t := Run(s, events);
            && Enabled(t, seed)
            && (t.applied == t.last.value.at ==> Inv(Step(t, seed)))
            && (t.applied == t.last.value.at + 1 ==> Astray(Step(t, seed)))
  {
    OneBehindOverRuns(s, events);
    var t := Run(s, events);
    StepKeepsBaseInv(t, seed);
    if t.applied == t.last.value.at {
      StepKeepsAgreement(t, seed);
    }
  }

  /** A card of a pool that remembers `body`, just mounted. */
  function MountedWith(server: Rotation, body: Body): System {
    Mounted(server).(last := Some(Sample(body, 0)))
  }

  const FILL_FIRST := DEFAULT_ROTATION.(strategy := FillFirst)

  /** The card after its seed and a choice of strategy that the listener has stored. */
  function Chosen(body: Body): System {
    MountedWith(DEFAULT_ROTATION, body).(
      server := FILL_FIRST,
      applied := 1,
      machine := Reduce(Reduce(Adopt(INITIAL, DEFAULT_ROTATION), StrategyChosen(FillFirst)), WriteStarted),
      write := Some(Write(FILL_FIRST, Some(FILL_FIRST))))
  }

  lemma ChosenIsReached(body: Body)
    requires Reports(body, DEFAULT_ROTATION)
    ensures var s0 := MountedWith(DEFAULT_ROTATION, body);
            var s1 := Step(s0, Seed(0));
            var s2 := Step(s1, ChooseStrategy(FillFirst));
            && Inv(s0) && Enabled(s2, ServerStores(FILL_FIRST))
            && Step(s2, ServerStores(FILL_FIRST)) == Chosen(body)
  {
    ReadBack(body, DEFAULT_ROTATION);
  }

  /** Losing the answer to that write leaves the controls at the values before it. */
  lemma LostAnswerDisagrees(body: Body)
    requires Reports(body, DEFAULT_ROTATION)
    ensures Enabled(Chosen(body), WriteAnswerLost)
    ensures !Agrees(Step(Chosen(body), WriteAnswerLost))
  {
  }

  /** With the write answered, seeding once more from the same memory reverts the controls. */
  lemma OldSeedReverts(body: Body)
    requires Reports(body, DEFAULT_ROTATION)
    ensures Enabled(Chosen(body), WriteAnswered(NotAnObject))
    ensures var s := Step(Chosen(body), WriteAnswered(NotAnObject));
            && s.machine.confirmed == s.server == FILL_FIRST
            && StaleSeed(s, Seed(2))
            && Step(s, Seed(2)).machine.confirmed == DEFAULT_ROTATION && !Agrees(Step(s, Seed(2)))
  {
    ReadBack(body, DEFAULT_ROTATION);
    StoredIsRead(NotAnObject, FILL_FIRST, FILL_FIRST);
  }

  /**
    * Writes must see the newest `saving`: two begun under an outdated flag end with the revision
    * odd and nothing in flight, and with the value whose answer came last, not the one stored last.
    */
  lemma OutdatedFlagBreaksParity(m: Machine, first: Rotation, second: Rotation)
    requires !m.saving && m.revision % 2 == 0
    ensures var begun := Reduce(Reduce(m, WriteStarted), WriteStarted);
            var t := Reduce(Reduce(begun, WriteAccepted(second)), WriteAccepted(first));
            !t.saving && t.revision % 2 == 1 && t.confirmed == first
  {
  }

  // ---------------------------------------------------------------- rollback

  predicate NoSettlement(events: seq<Event>) {
    forall e :: e in events ==> !IsSettlement(e)
  }

  /** While a write is in flight nothing but its settlement moves the confirmed values or the revision. */
  lemma WriteInFlightHolds(s: System, e: Event)
    requires MachineInv(s) && Enabled(s, e) && s.machine.saving && !IsSettlement(e)
    ensures var t := Step(s, e);
            && t.machine.saving && t.write.Some? && t.machine.confirmed == s.machine.confirmed
            && t.machine.revision == s.machine.revision
            && t.machine.heldRead == (s.machine.heldRead || Lands(s, e))
            && (t.write.value.stored.None? ==> s.write.value.stored.None? && t.server == s.server)
            && t.write.value.requested == s.write.value.requested
  {
    if IsGesture(e) {
      GestureEffect(s, e);
    }
  }

  lemma {:induction false} WriteInFlightHoldsOverRuns(s: System, events: seq<Event>)
    requires BaseInv(s) && ValidRun(s, events) && s.machine.saving && NoSettlement(events)
    ensures var t := Run(s, events);
            && BaseInv(t) && t.machine.saving && t.write.Some? && t.machine.confirmed == s.machine.confirmed
            && t.machine.revision == s.machine.revision
            && t.machine.heldRead == (s.machine.heldRead || LandsIn(s, events))
            && (t.write.value.stored.None? ==> s.write.value.stored.None? && t.server == s.server)
            && t.write.value.requested == s.write.value.requested
    decreases |events|
  {
    if events != [] {
      WriteInFlightHolds(s, events[0]);
      StepKeepsBaseInv(s, events[0]);
      WriteInFlightHoldsOverRuns(Step(s, events[0]), events[1..]);
    }
  }

  /**
    * A gesture starts a write; whatever arrives, fails or is typed meanwhile, a refusal puts
    * the controls back to exactly the values before the gesture, and the listener stores what
    * it stored then.
    */
  lemma RefusedWriteRestores(s: System, gesture: Event, meanwhile: seq<Event>)
    requires BaseInv(s) && !s.machine.saving && IsGesture(gesture) && Enabled(s, gesture)
    requires Step(s, gesture).machine.saving
    requires ValidRun(Step(s, gesture), meanwhile) && NoSettlement(meanwhile)
    requires Enabled(Run(Step(s, gesture), meanwhile), WriteRefused)
    ensures var t := Step(Run(Step(s, gesture), meanwhile), WriteRefused);
            && t.machine.visible == s.machine.visible && t.machine.confirmed == s.machine.confirmed
            && t.machine.stickyDraft == LimitText(s.machine.visible)
            && t.machine.error == Some(WriteFailed) && !t.machine.saving
            && t.server == s.server
  {
    var started := Step(s, gesture);
    GestureEffect(s, gesture);
    StepKeepsBaseInv(s, gesture);
    WriteInFlightHoldsOverRuns(started, meanwhile);
  }

  // ---------------------------------------------------------------- what a gesture asks for

  /** The machine has just sent a write for `r`, with `shown` on screen. */
  ghost predicate Sent(s: System, t: System, r: Rotation, shown: Rotation) {
    t == s.(write := Some(Write(r, None)),
            machine := s.machine.(visible := shown, saving := true, error := None, revision := s.machine.revision + 1))
  }

  /** Choosing another strategy sends it with the visible limit and order, and shows it; the same one does nothing. */
  lemma ChosenStrategyIsSent(s: System, x: Strategy)
    requires !ControlsLocked(s.machine)
    ensures var t := Step(s, ChooseStrategy(x));
            var r := Rotation(x, s.machine.visible.stickyLimit, s.machine.visible.resetOrder);
            if x == s.machine.visible.strategy then t == s else Sent(s, t, r, r)
  {
  }

  /** Choosing another order sends it with the visible strategy and limit, and shows it; the same one does nothing. */
  lemma ChosenOrderIsSent(s: System, x: ResetOrder)
    requires !ControlsLocked(s.machine)
    ensures var t := Step(s, ChooseResetOrder(x));
            var r := Rotation(s.machine.visible.strategy, s.machine.visible.stickyLimit, x);
            if x == s.machine.visible.resetOrder then t == s else Sent(s, t, r, r)
  {
  }

  /**
    * Committing a text that reads as another limit sends that limit with the visible strategy and
    * order, and shows it only once it is accepted. The same limit only tidies the draft, and a
    * text that is no limit puts the visible limit back and says so.
    */
  lemma CommittedLimitIsSent(s: System, text: string)
    requires !ControlsLocked(s.machine)
    ensures var t := Step(s, CommitSticky(text));
            var shown := s.machine.visible;
            match ParseDraft(text)
            case None =>
              t == s.(machine := s.machine.(stickyDraft := LimitText(shown), error := Some(InvalidSticky)))
            case Some(n) =>
              if n == shown.stickyLimit then t == s.(machine := s.machine.(stickyDraft := DecimalText(n)))
              else Sent(s, t, Rotation(shown.strategy, n, shown.resetOrder), shown)
  {
  }

  /** Typing changes the draft alone, locked or not. */
  lemma TypedIsShown(s: System, text: string)
    ensures Step(s, TypeSticky(text)) == s.(machine := s.machine.(stickyDraft := text))
  {
  }

  /** The pool remembers the answer it has, and nothing else changes. */
  lemma RememberedIsTheAnswer(s: System, id: nat)
    requires Enabled(s, PoolRemembers(id))
    ensures Step(s, PoolRemembers(id)).last == s.inFlight[id].answer
    ensures Step(s, PoolRemembers(id)) == s.(last := s.inFlight[id].answer)
  {
  }

  /** Locked controls change nothing. */
  lemma LockedControlsDoNothing(s: System, e: Event)
    requires ControlsLocked(s.machine) && (e.ChooseStrategy? || e.ChooseResetOrder? || e.CommitSticky?)
    ensures Step(s, e) == s
  {
  }

  /** Controls are locked exactly while a write is in flight or no read has brought values yet. */
  lemma LockedExactly(s: System)
    requires MachineInv(s) && (s.machine.hydrated ==> !s.machine.readFailed)
    ensures ControlsLocked(s.machine) <==> s.write.Some? || !s.machine.hydrated
  {
  }

  /** A failed read shows only on controls that were never read; nothing else changes. */
  lemma FailedReadShowsWhileCold(s: System, id: nat)
    requires id in s.inFlight
    ensures var t := Step(s, ReadFails(id));
            && t == s.(inFlight := s.inFlight - {id}, machine := t.machine)
            && t.machine == s.machine.(readFailed := s.machine.readFailed || !s.machine.hydrated)
  {
  }

  lemma GestureKeepsReadable(s: System, e: Event)
    requires IsGesture(e)
    ensures Step(s, e).machine.hydrated == s.machine.hydrated && Step(s, e).machine.readFailed == s.machine.readFailed
  {
  }

  /** Controls that were read never report a failed read. */
  lemma StepKeepsReadable(s: System, e: Event)
    requires Enabled(s, e) && (s.machine.hydrated ==> !s.machine.readFailed)
    ensures Step(s, e).machine.hydrated ==> !Step(s, e).machine.readFailed
  {
    if IsGesture(e) {
      GestureKeepsReadable(s, e);
    }
  }

  /** A read that is adopted unlocks the controls and leaves a draft that reads as the stored limit. */
  lemma AdoptedReadUnlocks(s: System, e: Event)
    requires BaseInv(s) && Enabled(s, e) && CurrentBetweenWrites(s, e)
    ensures var m := Step(s, e).machine;
            !ControlsLocked(m) && m.error.None? && ParseDraft(m.stickyDraft) == Some(s.server.stickyLimit)
  {
    AdoptedReadAgrees(s, e);
    var n := s.server.stickyLimit;
    DraftRoundTrip(n, [], []);
    assert [] + DecimalText(n) + [] == DecimalText(n);
  }

  /** What the values on screen and one gesture ask for. */
  predicate AsksFor(shown: Rotation, gesture: Event, r: Rotation) {
    match gesture
    case ChooseStrategy(x) => r == Rotation(x, shown.stickyLimit, shown.resetOrder)
    case ChooseResetOrder(x) => r == Rotation(shown.strategy, shown.stickyLimit, x)
    case CommitSticky(text) =>
      ParseDraft(text) == Some(r.stickyLimit) && r == Rotation(shown.strategy, r.stickyLimit, shown.resetOrder)
    case _ => false
  }

  lemma GestureSends(s: System, gesture: Event)
    requires MachineInv(s) && !s.machine.saving && IsGesture(gesture) && Enabled(s, gesture)
    requires Step(s, gesture).machine.saving
    ensures var t := Step(s, gesture);
            t.write.Some? && t.write.value.stored.None? && AsksFor(s.machine.visible, gesture, t.write.value.requested)
  {
    if ControlsLocked(s.machine) && !gesture.TypeSticky? {
      LockedControlsDoNothing(s, gesture);
    }
    match gesture {
      case ChooseStrategy(x) => ChosenStrategyIsSent(s, x);
      case ChooseResetOrder(x) => ChosenOrderIsSent(s, x);
      case CommitSticky(text) => CommittedLimitIsSent(s, text);
      case _ =>
    }
  }

  /**
    * A gesture that starts a write, answered by an obedient listener: whatever arrives, fails or
    * is typed meanwhile, exactly what the gesture asked for ends up stored, confirmed and visible.
    */
  lemma AcceptedGestureApplies(s: System, gesture: Event, meanwhile: seq<Event>, body: Body)
    requires BaseInv(s) && !s.machine.saving && IsGesture(gesture) && Enabled(s, gesture)
    requires Step(s, gesture).machine.saving
    requires ValidRun(Step(s, gesture), meanwhile) && NoSettlement(meanwhile) && Obedient(Step(s, gesture), meanwhile)
    requires Enabled(Run(Step(s, gesture), meanwhile), WriteAnswered(body))
    ensures var t := Step(Run(Step(s, gesture), meanwhile), WriteAnswered(body));
            && AsksFor(s.machine.visible, gesture, t.server)
            && t.machine.confirmed == t.machine.visible == t.server
            && t.machine.stickyDraft == LimitText(t.server) && !t.machine.saving && t.machine.error.None?
  {
    var started := Step(s, gesture);
    GestureSends(s, gesture);
    StepKeepsBaseInv(s, gesture);
    StepKeepsRequest(s, gesture);
    RequestOverRuns(started, meanwhile);
    WriteInFlightHoldsOverRuns(started, meanwhile);
    var before := Run(started, meanwhile);
    StoredIsRead(body, before.write.value.requested, before.write.value.stored.value);
  }

  // ---------------------------------------------------------------- held reads

  /** A read, or a seed, of the current revision landing during a write. */
  ghost predicate Lands(s: System, e: Event) {
    && s.machine.saving
    && (if e.ReadArrives? then
          && e.id in s.inFlight && s.inFlight[e.id].answer.Some?
          && s.inFlight[e.id].stamp == s.machine.revision
          && RotationFromActive(s.inFlight[e.id].answer.value.body).Some?
        else
          && e.Seed? && e.stamp == s.machine.revision
          && s.last.Some? && RotationFromActive(s.last.value.body).Some?)
  }

  ghost predicate LandsIn(s: System, events: seq<Event>)
    requires ValidRun(s, events)
    decreases |events|
  {
    events != [] && (Lands(s, events[0]) || LandsIn(Step(s, events[0]), events[1..]))
  }

  function Replays(events: seq<Event>): nat {
    if events == [] then 0 else (if events[0].ReplayHeldRead? then 1 else 0) + Replays(events[1..])
  }

  /** No write is in flight at any point of the run. */
  ghost predicate NoWriteStarts(s: System, events: seq<Event>)
    requires ValidRun(s, events)
    decreases |events|
  {
    !s.machine.saving && (events != [] ==> NoWriteStarts(Step(s, events[0]), events[1..]))
  }

  function AsCount(b: bool): nat {
    if b then 1 else 0
  }

  lemma HeldReadIsOwedOrReplayed(s: System, e: Event)
    requires MachineInv(s) && Enabled(s, e) && !s.machine.saving
    ensures AsCount(s.machine.heldRead) == AsCount(e.ReplayHeldRead?) + AsCount(Step(s, e).machine.heldRead)
  {
    if IsGesture(e) {
      GestureEffect(s, e);
    }
  }

  /** Between writes a held read is owed or replayed, never both and never twice. */
  lemma {:induction false} HeldReadIsReplayedOnce(s: System, events: seq<Event>)
    requires BaseInv(s) && ValidRun(s, events) && NoWriteStarts(s, events)
    ensures Replays(events) + AsCount(Run(s, events).machine.heldRead) == AsCount(s.machine.heldRead)
    decreases |events|
  {
    if events != [] {
      HeldReadIsOwedOrReplayed(s, events[0]);
      StepKeepsBaseInv(s, events[0]);
      HeldReadIsReplayedOnce(Step(s, events[0]), events[1..]);
    }
  }

  /**
    * One write, settled either way: however many current reads landed meanwhile, exactly one
    * re-read is owed or made afterwards if any did or one was still owed, and none otherwise.
    */
  lemma OneReplayPerWrite(s: System, meanwhile: seq<Event>, settled: Event, after: seq<Event>)
    requires BaseInv(s) && s.machine.saving
    requires ValidRun(s, meanwhile) && NoSettlement(meanwhile)
    requires IsSettlement(settled) && Enabled(Run(s, meanwhile), settled)
    requires ValidRun(Step(Run(s, meanwhile), settled), after)
    requires NoWriteStarts(Step(Run(s, meanwhile), settled), after)
    ensures Replays(after) + AsCount(Run(Step(Run(s, meanwhile), settled), after).machine.heldRead)
         == AsCount(s.machine.heldRead || LandsIn(s, meanwhile))
  {
    WriteInFlightHoldsOverRuns(s, meanwhile);
    StepKeepsBaseInv(Run(s, meanwhile), settled);
    HeldReadIsReplayedOnce(Step(Run(s, meanwhile), settled), after);
  }

  /** A re-read really is one: a new request under the stamp it carries, and the debt is paid. */
  lemma ReplayStartsRead(s: System, stamp: nat)
    requires Enabled(s, ReplayHeldRead(stamp))
    ensures var t := Step(s, ReplayHeldRead(stamp));
            && t.inFlight == s.inFlight[s.nextRead := Read(stamp, None)] && t.nextRead == s.nextRead + 1
            && t.machine == s.machine.(heldRead := false)
    ensures var t := Step(s, StartRead(stamp));
            t.inFlight == s.inFlight[s.nextRead := Read(stamp, None)] && t.machine == s.machine
  {
  }

  // ---------------------------------------------------------------- sticky-limit commits

  /** A commit of any text never changes what is on screen unless it parses to another limit. */
  lemma StickyCommitPlans(m: Machine, text: string)
    ensures var plan := PlanStickyCommit(m, text);
            match plan
            case Invalid => ParseDraft(text).None?
            case RewriteDraft(canonical) => ParseDraft(canonical) == ParseDraft(text) == Some(m.visible.stickyLimit)
            case WriteIt(rotation) =>
              && ValidRotation(rotation) && ParseDraft(text) == Some(rotation.stickyLimit)
              && rotation == m.visible.(stickyLimit := rotation.stickyLimit) && rotation != m.visible
  {
    if ParseDraft(text).Some? {
      DraftRoundTrip(ParseDraft(text).value, [], []);
      assert [] + DecimalText(ParseDraft(text).value) + [] == DecimalText(ParseDraft(text).value);
    }
  }

  /** A write that came back with a body, or failed. */
  function Ended(s: System, body: Option<Body>): System
    requires s.write.Some?
  {
    s.(write := None,
       machine := Reduce(s.machine,
         if body.Some? then WriteAccepted(StoredStrategy(body.value, s.write.value.requested)) else WriteRejected))
  }

  /** Whichever way the listener handled the write, its end is the protocol's step. */
  lemma EndedIsStep(s: System, body: Option<Body>)
    requires s.write.Some?
    ensures body.Some? && Enabled(s, WriteAnswered(body.value)) ==> Ended(s, body) == Step(s, WriteAnswered(body.value))
    ensures Enabled(s, WriteRefused) ==> Ended(s, None) == Step(s, WriteRefused)
    ensures Enabled(s, WriteAnswerLost) ==> Ended(s, None) == Step(s, WriteAnswerLost)
    ensures Enabled(s, WriteRefused) || Enabled(s, WriteAnswerLost)
  {
  }

  // ---------------------------------------------------------------- the binding

  /**
    * The machine a card holds, with the requests its pending promises stand for and the payload
    * its pool remembers. What the listener stores is not the card's to see: it is ghost.
    */
  class RotationBinding {
    var machine: Machine
    var inFlight: map<nat, Read>
    var nextRead: nat
    var pendingWrite: Option<Write>
    var lastActive: Option<Sample>
    ghost var server: Rotation
    ghost var applied: nat

    ghost function Model(): System
      reads this
    {
      System(machine, server, applied, inFlight, nextRead, pendingWrite, lastActive)
    }

    constructor (ghost server: Rotation)
      ensures Model() == Mounted(server)
    {
      machine, inFlight, nextRead, pendingWrite, lastActive := INITIAL, map[], 0, None, None;
      this.server, applied := server, 0;
    }

    method Dispatch(e: MachineEvent)
      modifies this`machine
      ensures machine == Reduce(old(machine), e)
    {
      machine := Reduce(machine, e);
    }

    /** `reload` and `beginActiveRead`: the stamp is the mirror's revision. */
    method Reload(stamp: nat)
      requires stamp <= machine.revision
      modifies this
      ensures Model() == Step(old(Model()), StartRead(stamp))
    {
      inFlight := inFlight[nextRead := Read(stamp, None)];
      nextRead := nextRead + 1;
    }

    /** `adopt`: a payload without rotation dispatches nothing. */
    method Adopt(body: Body, stamp: nat)
      modifies this`machine
      ensures machine == AdoptBody(old(machine), body, stamp)
    {
      var rotation := RotationFromActive(body);
      if rotation.Some? {
        Dispatch(ServerValuesArrived(rotation, stamp));
      }
    }

    method AcceptRead(id: nat)
      requires id in inFlight && inFlight[id].answer.Some?
      modifies this
      ensures Model() == Step(old(Model()), ReadArrives(id))
    {
      Adopt(inFlight[id].answer.value.body, inFlight[id].stamp);
      inFlight := inFlight - {id};
    }

    /** The effect that seeds the card from the payload its pool remembers. */
    method SeedFromLast(stamp: nat)
      requires stamp <= machine.revision
      modifies this
      ensures Model() == Step(old(Model()), Seed(stamp))
    {
      if lastActive.Some? {
        Adopt(lastActive.value.body, stamp);
      }
    }

    method RejectRead(id: nat)
      requires id in inFlight
      modifies this
      ensures Model() == Step(old(Model()), ReadFails(id))
    {
      inFlight := inFlight - {id};
      Dispatch(ServerReadFailed);
    }

    /** The part of `write` before its await. */
    method BeginWrite(rotation: Rotation)
      modifies this
      ensures Model() == StartWrite(old(Model()), rotation)
    {
      if machine.saving {
        return;
      }
      Dispatch(WriteStarted);
      pendingWrite := Some(Write(rotation, None));
    }

    method ChooseStrategy(strategy: Strategy)
      modifies this
      ensures Model() == Step(old(Model()), Event.ChooseStrategy(strategy))
    {
      if ControlsLocked(machine) || strategy == machine.visible.strategy {
        return;
      }
      var wanted := machine.visible.(strategy := strategy);
      Dispatch(StrategyChosen(strategy));
      BeginWrite(wanted);
    }

    method ChooseResetOrder(resetOrder: ResetOrder)
      modifies this
      ensures Model() == Step(old(Model()), Event.ChooseResetOrder(resetOrder))
    {
      if ControlsLocked(machine) || resetOrder == machine.visible.resetOrder {
        return;
      }
      var wanted := machine.visible.(resetOrder := resetOrder);
      Dispatch(ResetOrderChosen(resetOrder));
      BeginWrite(wanted);
    }

    /** Without a text of its own the commit takes the draft. */
    method CommitSticky(text: Option<string>)
      modifies this
      ensures var taken := if text.Some? then text.value else old(machine).stickyDraft;
              Model() == Step(old(Model()), Event.CommitSticky(taken))
    {
      if ControlsLocked(machine) {
        return;
      }
      var plan := PlanStickyCommit(machine, if text.Some? then text.value else machine.stickyDraft);
      match plan
      case Invalid => Dispatch(StickyDraftRejected);
      case RewriteDraft(canonical) => Dispatch(StickyDraftTyped(canonical));
      case WriteIt(rotation) => BeginWrite(rotation);
    }

    /** The part of `write` after its await; no body is a write that failed, applied or not. */
    method EndWrite(body: Option<Body>)
      requires pendingWrite.Some?
      modifies this
      ensures Model() == Ended(old(Model()), body)
      ensures pendingWrite.None? && !machine.saving && machine.revision == old(machine).revision + 1
    {
      if body.Some? {
        Dispatch(WriteAccepted(StoredStrategy(body.value, pendingWrite.value.requested)));
      } else {
        Dispatch(WriteRejected);
      }
      pendingWrite := None;
    }

    /** The effect that replays a held read. */
    method ReplayHeld(stamp: nat)
      requires stamp <= machine.revision
      modifies this
      ensures if old(machine).heldRead && !old(machine).saving
              then Model() == Step(old(Model()), ReplayHeldRead(stamp))
              else Model() == old(Model())
    {
      if !machine.heldRead || machine.saving {
        return;
      }
      Dispatch(HeldReadConsumed);
      Reload(stamp);
    }
  }
}
