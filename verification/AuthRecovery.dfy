/**
  * The dashboard's recovery from 401 answers (gui/src/api.ts; the status is that of section
  * 15.5.2 of RFC 9110). Any number of intercepted calls share one credential vault and at
  * most one recovery; every await is a step of its own, so their steps interleave freely.
  */
module AuthRecovery {
  import opened Options

  type Token = string

  const SESSION_TOKEN_PREFIX := "benes_session_"

  // ---------------------------------------------------------------- the vault

  datatype Vault = Vault(secret: Option<Token>, csrf: Option<string>, origin: Option<string>)

  const NO_CREDENTIALS := Vault(None, None, None)

  /** A secret the source's truth tests accept. */
  predicate Usable(secret: Option<Token>) {
    secret.Some? && secret.value != ""
  }

  function DropIfCurrent(v: Vault, expected: Option<Token>): Vault {
    if expected.Some? && v.secret == expected then NO_CREDENTIALS else v
  }

  predicate SessionAccepted(secret: Option<Token>, csrf: Option<string>, origin: Option<string>, here: string) {
    secret.Some? && SESSION_TOKEN_PREFIX <= secret.value && Usable(csrf) && origin == Some(here)
  }

  // ---------------------------------------------------------------- state

  /** What asking for a new session came to. */
  datatype Renewal = Minted(token: Token) | Unavailable | MintFailed

  /** The body of one shared recovery; `Settled` keeps what its promise resolved to. */
  datatype Recovery = Minting | Renewed(renewal: Renewal) | Prompting | Settled(result: Option<Token>)

  datatype Phase =
    | AwaitFirst(token: Option<Token>)
    | AwaitRaced(failed: Option<Token>, latest: Token)
    | AwaitJoin(failed: Option<Token>)
    | AwaitShared(recovery: nat)
    | AwaitRetry(retried: Token)
    | Done

  /** One intercepted call, and how often it has been sent. */
  datatype Call = Call(phase: Phase, sends: nat)

  /** `lateMints` counts session requests whose watchdog gave up on them. */
  datatype Auth = Auth(
    vault: Vault,
    promptClosed: bool,
    shared: Option<nat>,
    recoveries: seq<Recovery>,
    lateMints: nat,
    calls: map<nat, Call>)

  /** The runtime as `install` leaves it: with the page's session in the vault, or without one. */
  function Installed(vault: Vault): Auth {
    Auth(vault, false, None, [], 0, map[])
  }

  /** The answer of the session endpoint: a page with three meta values, a 4xx, or any other failure. */
  datatype Mint = Page(secret: Option<Token>, csrf: Option<string>, origin: Option<string>) | ClientError | Broken

  datatype Event =
    | Intercept(call: nat)
    | FirstAnswer(call: nat, unauthorized: bool, aborted: bool)
    | RacedAnswer(call: nat, unauthorized: bool)
    | Joins(call: nat, aborted: bool)
    | RetryAnswer(call: nat, unauthorized: bool)
    | SendFails(call: nat)
    | SharedDelivered(call: nat)
    | CallerAborts(call: nat)
    | MintAnswered(recovery: nat, mint: Mint, here: string)
    | WatchdogFires(recovery: nat)
    | LateMintAnswered(mint: Mint, here: string)
    | RecoveryResumes(recovery: nat)
    | PromptAnswered(recovery: nat, token: Option<Token>)
    | SharedCleared

  predicate RecoveryIs(s: Auth, g: nat, r: Recovery) {
    g < |s.recoveries| && s.recoveries[g] == r
  }

  predicate Enabled(s: Auth, e: Event) {
    match e
    case Intercept(c) => c !in s.calls
    case FirstAnswer(c, _, _) => c in s.calls && s.calls[c].phase.AwaitFirst?
    case RacedAnswer(c, _) => c in s.calls && s.calls[c].phase.AwaitRaced?
    case Joins(c, _) => c in s.calls && s.calls[c].phase.AwaitJoin?
    case RetryAnswer(c, _) => c in s.calls && s.calls[c].phase.AwaitRetry?
    case SendFails(c) =>
      c in s.calls && (s.calls[c].phase.AwaitFirst? || s.calls[c].phase.AwaitRaced? || s.calls[c].phase.AwaitRetry?)
    case SharedDelivered(c) =>
      && c in s.calls && s.calls[c].phase.AwaitShared?
      && s.calls[c].phase.recovery < |s.recoveries| && s.recoveries[s.calls[c].phase.recovery].Settled?
    case CallerAborts(c) => c in s.calls && s.calls[c].phase.AwaitShared?
    case MintAnswered(g, _, _) => RecoveryIs(s, g, Minting)
    case WatchdogFires(g) => RecoveryIs(s, g, Minting)
    case LateMintAnswered(_, _) => s.lateMints > 0
    case RecoveryResumes(g) => g < |s.recoveries| && s.recoveries[g].Renewed?
    case PromptAnswered(g, _) => RecoveryIs(s, g, Prompting)
    case SharedCleared => s.shared.Some? && s.shared.value < |s.recoveries| && s.recoveries[s.shared.value].Settled?
  }

  // ---------------------------------------------------------------- steps

  function To(s: Auth, c: nat, phase: Phase): Auth
    requires c in s.calls
  {
    s.(calls := s.calls[c := s.calls[c].(phase := phase)])
  }

  function Send(s: Auth, c: nat, phase: Phase): Auth
    requires c in s.calls
  {
    s.(calls := s.calls[c := Call(phase, s.calls[c].sends + 1)])
  }

  /** The part of `runShared` before its first await. */
  function StartRecovery(vault: Vault, failed: Option<Token>): Recovery {
    if Usable(vault.secret) && vault.secret != failed then Settled(vault.secret) else Minting
  }

  function AfterUnauthorized(s: Auth, c: nat, failed: Option<Token>, aborted: bool): Auth
    requires c in s.calls
  {
    if s.promptClosed then To(s, c, Done)
    else if aborted then To(s, c, Done)
    else if s.shared.Some? then To(s, c, AwaitShared(s.shared.value))
    else
      To(s, c, AwaitShared(|s.recoveries|)).(
        shared := Some(|s.recoveries|),
        recoveries := s.recoveries + [StartRecovery(s.vault, failed)])
  }

  /** `recover`: race a newer credential first, otherwise drop the failed one. */
  function Recover(s: Auth, c: nat, failed: Option<Token>, aborted: bool): Auth
    requires c in s.calls
  {
    if Usable(s.vault.secret) && s.vault.secret != failed then
      Send(s, c, AwaitRaced(failed, s.vault.secret.value))
    else
      AfterUnauthorized(s.(vault := DropIfCurrent(s.vault, failed)), c, failed, aborted)
  }

  function SettleRecovery(s: Auth, g: nat, result: Option<Token>): Auth
    requires g < |s.recoveries|
  {
    s.(recoveries := s.recoveries[g := Settled(result)])
  }

  /** `putSession` of a session page; anything else leaves the vault alone. */
  function StoreMint(s: Auth, mint: Mint, here: string): Auth {
    if mint.Page? && SessionAccepted(mint.secret, mint.csrf, mint.origin, here)
    then s.(vault := Vault(mint.secret, mint.csrf, mint.origin))
    else s
  }

  function RenewalOf(mint: Mint, here: string): Renewal {
    if mint.Broken? then MintFailed
    else if mint.Page? && SessionAccepted(mint.secret, mint.csrf, mint.origin, here) then Minted(mint.secret.value)
    else Unavailable
  }

  /** The rest of `runShared` once the renewal is in. */
  function Resumed(renewal: Renewal): Recovery {
    match renewal
    case Minted(token) => Settled(Some(token))
    case MintFailed => Settled(None)
    case Unavailable => Prompting
  }

  function Step(s: Auth, e: Event): Auth
    requires Enabled(s, e)
  {
    match e
    case Intercept(c) => s.(calls := s.calls[c := Call(AwaitFirst(s.vault.secret), 1)])
    case FirstAnswer(c, unauthorized, aborted) =>
      if !unauthorized then To(s, c, Done) else Recover(s, c, s.calls[c].phase.token, aborted)
    case RacedAnswer(c, unauthorized) =>
      if !unauthorized then To(s, c, Done)
      else
        To(s, c, AwaitJoin(s.calls[c].phase.failed)).(vault := DropIfCurrent(s.vault, Some(s.calls[c].phase.latest)))
    case Joins(c, aborted) => AfterUnauthorized(s, c, s.calls[c].phase.failed, aborted)
    case RetryAnswer(c, unauthorized) =>
      var dropped := if unauthorized then DropIfCurrent(s.vault, Some(s.calls[c].phase.retried)) else s.vault;
      To(s, c, Done).(vault := dropped)
    case SendFails(c) => To(s, c, Done)
    case SharedDelivered(c) =>
      var result := s.recoveries[s.calls[c].phase.recovery].result;
      if Usable(result) then Send(s, c, AwaitRetry(result.value)) else To(s, c, Done)
    case CallerAborts(c) => To(s, c, Done)
    case MintAnswered(g, mint, here) =>
      StoreMint(s, mint, here).(recoveries := s.recoveries[g := Renewed(RenewalOf(mint, here))])
    case WatchdogFires(g) => s.(recoveries := s.recoveries[g := Renewed(MintFailed)], lateMints := s.lateMints + 1)
    case RecoveryResumes(g) => s.(recoveries := s.recoveries[g := Resumed(s.recoveries[g].renewal)])
    case LateMintAnswered(mint, here) => StoreMint(s, mint, here).(lateMints := s.lateMints - 1)
    case PromptAnswered(g, token) =>
      if Usable(token) then SettleRecovery(s, g, token).(vault := s.vault.(secret := token))
      else SettleRecovery(s, g, None).(promptClosed := true)
    case SharedCleared => s.(shared := None)
  }

  predicate ValidRun(s: Auth, events: seq<Event>)
    decreases |events|
  {
    events != [] ==> Enabled(s, events[0]) && ValidRun(Step(s, events[0]), events[1..])
  }

  function Run(s: Auth, events: seq<Event>): Auth
    requires ValidRun(s, events)
    decreases |events|
  {
    if events == [] then s else Run(Step(s, events[0]), events[1..])
  }

  // ---------------------------------------------------------------- what every step keeps

  /** One recovery at a time: an unsettled one is the shared one, and none is left after a dismissal. */
  ghost predicate SingleFlight(s: Auth) {
    && (s.shared.Some? ==> s.shared.value < |s.recoveries|)
    && (forall g :: 0 <= g < |s.recoveries| && !s.recoveries[g].Settled? ==> s.shared == Some(g) && !s.promptClosed)
  }

  predicate SendsFit(c: Call) {
    match c.phase
    case AwaitFirst(_) => c.sends == 1
    case AwaitRaced(_, _) => c.sends == 2
    case AwaitJoin(_) => c.sends == 2
    case AwaitShared(_) => 1 <= c.sends <= 2
    case AwaitRetry(_) => 2 <= c.sends <= 3
    case Done => 1 <= c.sends <= 3
  }

  ghost predicate CallsInv(s: Auth) {
    forall c :: c in s.calls ==>
      SendsFit(s.calls[c]) && (s.calls[c].phase.AwaitShared? ==> s.calls[c].phase.recovery < |s.recoveries|)
  }

  ghost predicate Inv(s: Auth) {
    SingleFlight(s) && CallsInv(s)
  }

  lemma AfterUnauthorizedKeepsInv(s: Auth, c: nat, failed: Option<Token>, aborted: bool)
    requires Inv(s) && c in s.calls && 1 <= s.calls[c].sends <= 2
    ensures Inv(AfterUnauthorized(s, c, failed, aborted))
  {
  }

  /** The steps of calls, as opposed to those of the shared recovery. */
  predicate IsCallStep(e: Event) {
    e.Intercept? || e.FirstAnswer? || e.RacedAnswer? || e.Joins? || e.RetryAnswer? || e.SendFails? || e.SharedDelivered? || e.CallerAborts?
  }

  lemma CallStepKeepsInv(s: Auth, e: Event)
    requires Inv(s) && Enabled(s, e) && IsCallStep(e)
    ensures Inv(Step(s, e))
  {
    match e {
      case FirstAnswer(c, _, aborted) =>
        var failed := s.calls[c].phase.token;
        AfterUnauthorizedKeepsInv(s.(vault := DropIfCurrent(s.vault, failed)), c, failed, aborted);
      case Joins(c, aborted) => AfterUnauthorizedKeepsInv(s, c, s.calls[c].phase.failed, aborted);
      case _ =>
    }
  }

  lemma StepKeepsInv(s: Auth, e: Event)
    requires Inv(s) && Enabled(s, e)
    ensures Inv(Step(s, e))
    ensures s.promptClosed ==> Step(s, e).promptClosed
  {
    if IsCallStep(e) {
      CallStepKeepsInv(s, e);
    }
  }

  lemma {:induction false} RunKeepsInv(s: Auth, events: seq<Event>)
    requires Inv(s) && ValidRun(s, events)
    ensures Inv(Run(s, events))
    ensures s.promptClosed ==> Run(s, events).promptClosed
    decreases |events|
  {
    if events != [] {
      StepKeepsInv(s, events[0]);
      RunKeepsInv(Step(s, events[0]), events[1..]);
    }
  }

  // ---------------------------------------------------------------- one prompt, few sends

  predicate UnderWay(s: Auth, g: int) {
    0 <= g < |s.recoveries| && !s.recoveries[g].Settled?
  }

  ghost function OpenPrompts(s: Auth): set<nat> {
    set g | 0 <= g < |s.recoveries| && s.recoveries[g].Prompting?
  }

  /**
    * Over every run of any number of concurrent calls, from whatever session was installed: at most one recovery is under way, so at
    * most one sign-in prompt is open, none once a prompt was dismissed, and no call is sent
    * more than three times.
    */
  lemma RecoveryIsSingleFlight(vault: Vault, events: seq<Event>)
    requires ValidRun(Installed(vault), events)
    ensures var s := Run(Installed(vault), events);
            && (forall g, h :: UnderWay(s, g) && UnderWay(s, h) ==> g == h)
            && |OpenPrompts(s)| <= 1
            && (s.promptClosed ==> OpenPrompts(s) == {})
            && (forall c :: c in s.calls ==> s.calls[c].sends <= 3)
  {
    RunKeepsInv(Installed(vault), events);
    var s := Run(Installed(vault), events);
    if OpenPrompts(s) != {} {
      var g :| g in OpenPrompts(s);
      assert OpenPrompts(s) == {g};
    }
  }

  /** No call waits on an abandoned recovery: what it waits for is settled, or is the shared one under way. */
  lemma WaitersAreServed(vault: Vault, events: seq<Event>, c: nat)
    requires ValidRun(Installed(vault), events)
    requires c in Run(Installed(vault), events).calls && Run(Installed(vault), events).calls[c].phase.AwaitShared?
    ensures var s := Run(Installed(vault), events);
            var g := s.calls[c].phase.recovery;
            Enabled(s, SharedDelivered(c)) || (UnderWay(s, g) && s.shared == Some(g))
  {
    RunKeepsInv(Installed(vault), events);
  }

  /** This step shows a sign-in prompt. */
  predicate OpensPrompt(s: Auth, e: Event)
    requires Enabled(s, e)
  {
    e.RecoveryResumes? && Step(s, e).recoveries[e.recovery].Prompting?
  }

  function PromptsOpened(s: Auth, events: seq<Event>): nat
    requires ValidRun(s, events)
    decreases |events|
  {
    if events == [] then 0
    else (if OpensPrompt(s, events[0]) then 1 else 0) + PromptsOpened(Step(s, events[0]), events[1..])
  }

  /** After a dismissal no run ever opens a prompt again, whatever calls and answers follow. */
  lemma {:induction false} NoPromptAfterDismissal(s: Auth, events: seq<Event>)
    requires Inv(s) && s.promptClosed && ValidRun(s, events)
    ensures PromptsOpened(s, events) == 0
    ensures Run(s, events).promptClosed && OpenPrompts(Run(s, events)) == {}
    decreases |events|
  {
    if events != [] {
      StepKeepsInv(s, events[0]);
      NoPromptAfterDismissal(Step(s, events[0]), events[1..]);
    }
  }

  // ---------------------------------------------------------------- a 401 only clears its own credential

  /** The credential the answered request carried. */
  function CredentialOf(s: Auth, e: Event): Option<Token>
    requires Enabled(s, e) && (e.FirstAnswer? || e.RacedAnswer? || e.RetryAnswer?)
  {
    match e
    case FirstAnswer(c, _, _) => s.calls[c].phase.token
    case RacedAnswer(c, _) => Some(s.calls[c].phase.latest)
    case RetryAnswer(c, _) => Some(s.calls[c].phase.retried)
  }

  /** An answer clears the vault exactly when it is a 401 for the credential stored now. */
  lemma UnauthorizedClearsOnlyItsOwn(s: Auth, e: Event)
    requires Enabled(s, e) && (e.FirstAnswer? || e.RacedAnswer? || e.RetryAnswer?)
    ensures var sent := CredentialOf(s, e);
            Step(s, e).vault == if e.unauthorized && sent.Some? && s.vault.secret == sent then NO_CREDENTIALS else s.vault
  {
  }

  // ---------------------------------------------------------------- what a recovery is worth

  /** The call has been sent once more than before, carrying `token`. */
  ghost predicate Resent(s: Auth, t: Auth, c: nat, token: Token) {
    c in s.calls && c in t.calls && t.calls[c] == Call(AwaitRetry(token), s.calls[c].sends + 1)
  }

  /** The call has ended without another send. */
  ghost predicate EndedUnsent(s: Auth, t: Auth, c: nat) {
    c in s.calls && c in t.calls && t.calls[c] == Call(Done, s.calls[c].sends)
  }

  /** A call is first sent once, with the credential the vault holds. */
  lemma InterceptedIsSent(s: Auth, c: nat)
    requires Enabled(s, Intercept(c))
    ensures var t := Step(s, Intercept(c));
            && c in t.calls && t.calls[c] == Call(AwaitFirst(s.vault.secret), 1)
            && t == s.(calls := t.calls) && forall k :: k in s.calls ==> k in t.calls && t.calls[k] == s.calls[k]
  {
  }

  /**
    * A first 401: with a newer credential in the vault the call is sent again with it at once;
    * otherwise it waits on the one shared recovery, unless its caller gave up or a prompt was
    * dismissed, and then it ends.
    */
  lemma FirstUnauthorized(s: Auth, c: nat, aborted: bool)
    requires Inv(s) && Enabled(s, FirstAnswer(c, true, aborted))
    ensures var t := Step(s, FirstAnswer(c, true, aborted));
            var newest := s.vault.secret;
            if newest.Some? && newest.value != "" && newest != s.calls[c].phase.token then
              c in t.calls && t.calls[c] == Call(AwaitRaced(s.calls[c].phase.token, newest.value), 2)
            else if s.promptClosed || aborted then EndedUnsent(s, t, c)
            else c in t.calls && t.calls[c].sends == 1 && t.shared.Some? && t.calls[c].phase == AwaitShared(t.shared.value)
                 && (s.shared.Some? ==> t.shared == s.shared)
  {
  }

  /** A waiting call is sent once more, with the token its recovery settled with, or ends if there is none. */
  lemma DeliveredIsResent(s: Auth, c: nat)
    requires Enabled(s, SharedDelivered(c))
    ensures var t := Step(s, SharedDelivered(c));
            var result := s.recoveries[s.calls[c].phase.recovery].result;
            if result.Some? && result.value != "" then Resent(s, t, c, result.value) else EndedUnsent(s, t, c)
  {
  }

  /** An answer other than 401 ends a call where it stands. */
  lemma AnsweredIsDone(s: Auth, c: nat, aborted: bool)
    ensures Enabled(s, FirstAnswer(c, false, aborted)) ==> EndedUnsent(s, Step(s, FirstAnswer(c, false, aborted)), c)
    ensures Enabled(s, RacedAnswer(c, false)) ==> EndedUnsent(s, Step(s, RacedAnswer(c, false)), c)
    ensures Enabled(s, RetryAnswer(c, false)) ==> EndedUnsent(s, Step(s, RetryAnswer(c, false)), c)
    ensures Enabled(s, RetryAnswer(c, true)) ==> EndedUnsent(s, Step(s, RetryAnswer(c, true)), c)
  {
  }

  /** A recovery that starts while the vault holds another credential than the failed one gives that at once. */
  lemma NewRecoveryUsesTheVault(s: Auth, c: nat, failed: Option<Token>)
    requires c in s.calls && !s.promptClosed && s.shared.None?
    ensures var t := AfterUnauthorized(s, c, failed, false);
            var newest := s.vault.secret;
            && |t.recoveries| == |s.recoveries| + 1 && t.shared == Some(|s.recoveries|)
            && t.recoveries[|s.recoveries|] ==
                 if newest.Some? && newest.value != "" && newest != failed then Settled(newest) else Minting
  {
  }

  /** The page carries a session for this origin. */
  predicate CarriesSession(mint: Mint, here: string) {
    && mint.Page? && mint.secret.Some? && "benes_session_" <= mint.secret.value
    && mint.csrf.Some? && mint.csrf.value != "" && mint.origin == Some(here)
  }

  /**
    * What asking for a session leads to: a session is stored whole and settles the recovery with
    * its token, a refusal opens the prompt, any other failure settles it with nothing.
    */
  lemma MintLeadsTo(s: Auth, g: nat, mint: Mint, here: string)
    requires Enabled(s, MintAnswered(g, mint, here))
    ensures var answered := Step(s, MintAnswered(g, mint, here));
            && Enabled(answered, RecoveryResumes(g))
            && answered.vault == (if CarriesSession(mint, here) then Vault(mint.secret, mint.csrf, mint.origin) else s.vault)
            && var t := Step(answered, RecoveryResumes(g));
               && t.vault == answered.vault && |t.recoveries| == |s.recoveries|
               && t.recoveries[g] ==
                    if CarriesSession(mint, here) then Settled(mint.secret)
                    else if mint.Broken? then Settled(None)
                    else Prompting
  {
  }

  /** A watchdog that fires first settles the recovery with nothing. */
  lemma WatchdogLeadsToNothing(s: Auth, g: nat)
    requires Enabled(s, WatchdogFires(g))
    ensures var fired := Step(s, WatchdogFires(g));
            && Enabled(fired, RecoveryResumes(g)) && fired.vault == s.vault && fired.lateMints == s.lateMints + 1
            && g < |Step(fired, RecoveryResumes(g)).recoveries|
            && Step(fired, RecoveryResumes(g)).recoveries[g] == Settled(None)
  {
  }

  /** A session that comes in after the watchdog is still stored, and settles nothing. */
  lemma LateSessionIsStored(s: Auth, mint: Mint, here: string)
    requires Enabled(s, LateMintAnswered(mint, here))
    ensures var t := Step(s, LateMintAnswered(mint, here));
            && t.vault == (if CarriesSession(mint, here) then Vault(mint.secret, mint.csrf, mint.origin) else s.vault)
            && t.recoveries == s.recoveries && t.calls == s.calls && t.lateMints == s.lateMints - 1
  {
  }

  /** A prompted token is stored and settles the recovery; an empty answer settles it with nothing, for good. */
  lemma PromptLeadsTo(s: Auth, g: nat, token: Option<Token>)
    requires Enabled(s, PromptAnswered(g, token))
    ensures var t := Step(s, PromptAnswered(g, token));
            && |t.recoveries| == |s.recoveries|
            && if token.Some? && token.value != "" then
                 t.recoveries[g] == Settled(token) && t.vault == s.vault.(secret := token) && t.promptClosed == s.promptClosed
               else t.recoveries[g] == Settled(None) && t.vault == s.vault && t.promptClosed
  {
  }

  /** The recovery has a token to give, now or once it resumes. */
  predicate WillGive(s: Auth, g: nat, token: Token) {
    g < |s.recoveries| && (s.recoveries[g] == Renewed(Minted(token)) || s.recoveries[g] == Settled(Some(token)))
  }

  lemma StepKeepsPromise(s: Auth, e: Event, g: nat, token: Token)
    requires WillGive(s, g, token) && Enabled(s, e)
    ensures WillGive(Step(s, e), g, token)
  {
  }

  lemma {:induction false} PromiseOverRuns(s: Auth, events: seq<Event>, g: nat, token: Token)
    requires WillGive(s, g, token) && ValidRun(s, events)
    ensures WillGive(Run(s, events), g, token)
    decreases |events|
  {
    if events != [] {
      StepKeepsPromise(s, events[0], g, token);
      PromiseOverRuns(Step(s, events[0]), events[1..], g, token);
    }
  }

  /**
    * Over every run after a session was minted: the vault got the session, and each call that
    * waits on that recovery is sent once more with its token when the result reaches it, however
    * much happens in between.
    */
  lemma MintedCallIsResent(s: Auth, g: nat, mint: Mint, here: string, events: seq<Event>, c: nat)
    requires Enabled(s, MintAnswered(g, mint, here)) && CarriesSession(mint, here)
    requires ValidRun(Step(s, MintAnswered(g, mint, here)), events)
    requires Enabled(Run(Step(s, MintAnswered(g, mint, here)), events), SharedDelivered(c))
    requires Run(Step(s, MintAnswered(g, mint, here)), events).calls[c].phase == AwaitShared(g)
    ensures var minted := Step(s, MintAnswered(g, mint, here));
            var t := Run(minted, events);
            minted.vault.secret == mint.secret && Resent(t, Step(t, SharedDelivered(c)), c, mint.secret.value)
  {
    var minted := Step(s, MintAnswered(g, mint, here));
    PromiseOverRuns(minted, events, g, mint.secret.value);
    DeliveredIsResent(Run(minted, events), c);
    assert SESSION_TOKEN_PREFIX != "" && |mint.secret.value| >= |SESSION_TOKEN_PREFIX|;
  }

  /** The same of a token the operator entered. */
  lemma PromptedCallIsResent(s: Auth, g: nat, token: Token, events: seq<Event>, c: nat)
    requires Enabled(s, PromptAnswered(g, Some(token))) && token != ""
    requires ValidRun(Step(s, PromptAnswered(g, Some(token))), events)
    requires Enabled(Run(Step(s, PromptAnswered(g, Some(token))), events), SharedDelivered(c))
    requires Run(Step(s, PromptAnswered(g, Some(token))), events).calls[c].phase == AwaitShared(g)
    ensures var prompted := Step(s, PromptAnswered(g, Some(token)));
            var t := Run(prompted, events);
            prompted.vault.secret == Some(token) && Resent(t, Step(t, SharedDelivered(c)), c, token)
  {
    var prompted := Step(s, PromptAnswered(g, Some(token)));
    PromiseOverRuns(prompted, events, g, token);
    DeliveredIsResent(Run(prompted, events), c);
  }

  /** A waiting call goes on waiting on its own recovery until it is served, or its caller gives up. */
  lemma WaiterStays(s: Auth, e: Event, c: nat)
    requires c in s.calls && s.calls[c].phase.AwaitShared? && Enabled(s, e)
    ensures c in Step(s, e).calls
    ensures e != SharedDelivered(c) && e != CallerAborts(c) ==> Step(s, e).calls[c] == s.calls[c]
  {
  }

  /** Nothing in the run serves the call or gives it up. */
  predicate LeavesWaiting(events: seq<Event>, c: nat) {
    forall e :: e in events ==> e != SharedDelivered(c) && e != CallerAborts(c)
  }

  lemma {:induction false} WaiterStaysOverRuns(s: Auth, events: seq<Event>, c: nat)
    requires c in s.calls && s.calls[c].phase.AwaitShared? && ValidRun(s, events) && LeavesWaiting(events, c)
    ensures c in Run(s, events).calls && Run(s, events).calls[c] == s.calls[c]
    decreases |events|
  {
    if events != [] {
      assert events[0] in events && forall e :: e in events[1..] ==> e in events;
      WaiterStays(s, events[0], c);
      WaiterStaysOverRuns(Step(s, events[0]), events[1..], c);
    }
  }

  /** A 401 for the newest credential, its caller still there and no prompt dismissed. */
  predicate StartsWaiting(s: Auth, c: nat) {
    && Enabled(s, FirstAnswer(c, true, false)) && !s.promptClosed
    && (s.vault.secret.None? || s.vault.secret.value == "" || s.vault.secret == s.calls[c].phase.token)
  }

  /**
    * From a 401 to the resend: the call waits, whatever else happens; a session is minted for the
    * recovery it waits on; and when the result reaches it, it is sent a second time, with the
    * credential the vault got.
    */
  lemma UnauthorizedThenRenewed(
      s: Auth, c: nat, before: seq<Event>, g: nat, mint: Mint, here: string, after: seq<Event>)
    requires Inv(s) && StartsWaiting(s, c)
    requires ValidRun(Step(s, FirstAnswer(c, true, false)), before) && LeavesWaiting(before, c)
    requires Step(s, FirstAnswer(c, true, false)).shared == Some(g) && CarriesSession(mint, here)
    requires Enabled(Run(Step(s, FirstAnswer(c, true, false)), before), MintAnswered(g, mint, here))
    requires ValidRun(Step(Run(Step(s, FirstAnswer(c, true, false)), before), MintAnswered(g, mint, here)), after)
    requires LeavesWaiting(after, c)
    ensures var minted := Step(Run(Step(s, FirstAnswer(c, true, false)), before), MintAnswered(g, mint, here));
            var t := Run(minted, after);
            && minted.vault.secret == mint.secret
            && c in t.calls && t.calls[c] == Call(AwaitShared(g), 1)
            && (Enabled(t, SharedDelivered(c)) ==>
                  c in Step(t, SharedDelivered(c)).calls
                  && Step(t, SharedDelivered(c)).calls[c] == Call(AwaitRetry(mint.secret.value), 2))
  {
    var waiting := Step(s, FirstAnswer(c, true, false));
    FirstUnauthorized(s, c, false);
    WaiterStaysOverRuns(waiting, before, c);
    var asked := Run(waiting, before);
    WaiterStays(asked, MintAnswered(g, mint, here), c);
    var minted := Step(asked, MintAnswered(g, mint, here));
    WaiterStaysOverRuns(minted, after, c);
    if Enabled(Run(minted, after), SharedDelivered(c)) {
      MintedCallIsResent(asked, g, mint, here, after, c);
    }
  }

  /** A raced 401 drops the credential it was sent with, and then joins or ends like a first one. */
  lemma RacedUnauthorized(s: Auth, c: nat, aborted: bool)
    requires Enabled(s, RacedAnswer(c, true))
    ensures var raced := Step(s, RacedAnswer(c, true));
            && c in raced.calls && raced.calls[c] == Call(AwaitJoin(s.calls[c].phase.failed), s.calls[c].sends)
            && Enabled(raced, Joins(c, aborted))
  {
  }

  lemma JoinWaitsOrEnds(s: Auth, c: nat, aborted: bool)
    requires Enabled(s, Joins(c, aborted))
    ensures var t := Step(s, Joins(c, aborted));
            if s.promptClosed || aborted then EndedUnsent(s, t, c)
            else c in t.calls && t.shared.Some? && t.calls[c] == Call(AwaitShared(t.shared.value), s.calls[c].sends)
                 && (s.shared.Some? ==> t.shared == s.shared)
  {
  }

  /** A call whose caller gave up, or whose request could not be sent, ends without another send. */
  lemma GivenUpIsDone(s: Auth, c: nat)
    ensures Enabled(s, CallerAborts(c)) ==> EndedUnsent(s, Step(s, CallerAborts(c)), c)
    ensures Enabled(s, SendFails(c)) ==> EndedUnsent(s, Step(s, SendFails(c)), c)
  {
  }

  /** Once a recovery has settled, the next 401 starts a new one. */
  lemma ClearedMakesRoom(s: Auth, c: nat, failed: Option<Token>)
    requires Enabled(s, SharedCleared) && c in s.calls && !s.promptClosed
    ensures var cleared := Step(s, SharedCleared);
            && cleared == s.(shared := None)
            && AfterUnauthorized(cleared, c, failed, false).shared == Some(|s.recoveries|)
  {
  }

  // ---------------------------------------------------------------- the objects

  class CredentialVault {
    var secret: Option<Token>
    var csrf: Option<string>
    var origin: Option<string>

    ghost function Model(): Vault
      reads this
    {
      Vault(secret, csrf, origin)
    }

    constructor ()
      ensures Model() == NO_CREDENTIALS
    {
      secret, csrf, origin := None, None, None;
    }

    method Reset()
      modifies this
      ensures Model() == NO_CREDENTIALS
    {
      secret, csrf, origin := None, None, None;
    }

    method DropIfCurrent(expected: Option<Token>)
      modifies this
      ensures Model() == if expected.Some? && old(secret) == expected then NO_CREDENTIALS else old(Model())
    {
      if expected.Some? && secret == expected {
        Reset();
      }
    }

    method PutAdmin(token: Token)
      modifies this
      ensures Model() == old(Model()).(secret := Some(token))
    {
      secret := Some(token);
    }

    method PutSession(newSecret: Option<Token>, newCsrf: Option<string>, newOrigin: Option<string>, here: string)
      returns (stored: bool)
      modifies this
      ensures stored == SessionAccepted(newSecret, newCsrf, newOrigin, here)
      ensures Model() == if stored then Vault(newSecret, newCsrf, newOrigin) else old(Model())
    {
      if newSecret.None? || !(SESSION_TOKEN_PREFIX <= newSecret.value) || newCsrf.None? || newCsrf.value == ""
         || newOrigin != Some(here) {
        return false;
      }
      secret, csrf, origin := newSecret, newCsrf, newOrigin;
      return true;
    }
  }

  /** The runtime's own fields, with the calls and recoveries its pending promises stand for. */
  class GuiAuthRuntime {
    const vault: CredentialVault
    var promptClosed: bool
    var shared: Option<nat>
    var recoveries: seq<Recovery>
    var lateMints: nat
    var calls: map<nat, Call>

    ghost function Model(): Auth
      reads this, vault
    {
      Auth(vault.Model(), promptClosed, shared, recoveries, lateMints, calls)
    }

    constructor ()
      ensures Model() == Installed(NO_CREDENTIALS) && fresh(vault)
    {
      var made := new CredentialVault();
      vault := made;
      promptClosed, shared, recoveries, lateMints, calls := false, None, [], 0, map[];
    }

    method Intercept(c: nat)
      requires c !in calls
      modifies this
      ensures Model() == Step(old(Model()), Event.Intercept(c))
    {
      calls := calls[c := Call(AwaitFirst(vault.secret), 1)];
    }

    method Finish(c: nat)
      requires c in calls
      modifies this`calls
      ensures Model() == To(old(Model()), c, Done)
    {
      calls := calls[c := calls[c].(phase := Done)];
    }

    method JoinRecovery(c: nat, failed: Option<Token>, aborted: bool)
      requires c in calls
      modifies this
      ensures Model() == AfterUnauthorized(old(Model()), c, failed, aborted)
    {
      if promptClosed || aborted {
        Finish(c);
        return;
      }
      if shared.None? {
        var body := Minting;
        if vault.secret.Some? && vault.secret.value != "" && vault.secret != failed {
          body := Settled(vault.secret);
        }
        shared := Some(|recoveries|);
        recoveries := recoveries + [body];
      }
      calls := calls[c := calls[c].(phase := AwaitShared(shared.value))];
    }

    method OnFirstAnswer(c: nat, unauthorized: bool, aborted: bool)
      requires c in calls && calls[c].phase.AwaitFirst?
      modifies this, vault
      ensures Model() == Step(old(Model()), FirstAnswer(c, unauthorized, aborted))
    {
      if !unauthorized {
        Finish(c);
        return;
      }
      var failed := calls[c].phase.token;
      if vault.secret.Some? && vault.secret.value != "" && vault.secret != failed {
        calls := calls[c := Call(AwaitRaced(failed, vault.secret.value), calls[c].sends + 1)];
      } else {
        vault.DropIfCurrent(failed);
        JoinRecovery(c, failed, aborted);
      }
    }

    /** `retry` drops the credential that failed; `recover` goes on in a step of its own. */
    method OnRacedAnswer(c: nat, unauthorized: bool)
      requires c in calls && calls[c].phase.AwaitRaced?
      modifies this, vault
      ensures Model() == Step(old(Model()), RacedAnswer(c, unauthorized))
    {
      if !unauthorized {
        Finish(c);
        return;
      }
      var phase := calls[c].phase;
      vault.DropIfCurrent(Some(phase.latest));
      calls := calls[c := calls[c].(phase := AwaitJoin(phase.failed))];
    }

    method OnRacedReturned(c: nat, aborted: bool)
      requires c in calls && calls[c].phase.AwaitJoin?
      modifies this
      ensures Model() == Step(old(Model()), Joins(c, aborted))
    {
      JoinRecovery(c, calls[c].phase.failed, aborted);
    }

    method OnRetryAnswer(c: nat, unauthorized: bool)
      requires c in calls && calls[c].phase.AwaitRetry?
      modifies this, vault
      ensures Model() == Step(old(Model()), RetryAnswer(c, unauthorized))
    {
      if unauthorized {
        vault.DropIfCurrent(Some(calls[c].phase.retried));
      }
      Finish(c);
    }

    /** The session page installed at start-up. */
    method Install(secret: Option<Token>, csrf: Option<string>, origin: Option<string>, here: string)
      modifies vault
      ensures Model() == old(Model()).(
                vault := if SessionAccepted(secret, csrf, origin, here) then Vault(secret, csrf, origin)
                         else old(vault.Model()))
    {
      var stored := vault.PutSession(secret, csrf, origin, here);
    }

    method OnMint(g: nat, mint: Mint, here: string)
      requires RecoveryIs(Model(), g, Minting)
      modifies this, vault
      ensures Model() == Step(old(Model()), MintAnswered(g, mint, here))
    {
      if mint.Broken? {
        recoveries := recoveries[g := Renewed(MintFailed)];
        return;
      }
      if mint.Page? {
        var stored := vault.PutSession(mint.secret, mint.csrf, mint.origin, here);
        if stored {
          recoveries := recoveries[g := Renewed(Minted(mint.secret.value))];
          return;
        }
      }
      recoveries := recoveries[g := Renewed(Unavailable)];
    }

    method OnRenewed(g: nat)
      requires g < |recoveries| && recoveries[g].Renewed?
      modifies this`recoveries
      ensures Model() == Step(old(Model()), RecoveryResumes(g))
    {
      var renewal := recoveries[g].renewal;
      if renewal.Minted? {
        recoveries := recoveries[g := Settled(Some(renewal.token))];
      } else if renewal.MintFailed? {
        recoveries := recoveries[g := Settled(None)];
      } else {
        recoveries := recoveries[g := Prompting];
      }
    }

    method OnPrompt(g: nat, token: Option<Token>)
      requires RecoveryIs(Model(), g, Prompting)
      modifies this, vault
      ensures Model() == Step(old(Model()), PromptAnswered(g, token))
    {
      if token.Some? && token.value != "" {
        vault.PutAdmin(token.value);
        recoveries := recoveries[g := Settled(token)];
      } else {
        promptClosed := true;
        recoveries := recoveries[g := Settled(None)];
      }
    }

    /** The recovery took too long: it fails, and its session request may still answer later. */
    method OnWatchdog(g: nat)
      requires RecoveryIs(Model(), g, Minting)
      modifies this
      ensures Model() == Step(old(Model()), WatchdogFires(g))
    {
      recoveries := recoveries[g := Renewed(MintFailed)];
      lateMints := lateMints + 1;
    }

    method OnLateMint(mint: Mint, here: string)
      requires lateMints > 0
      modifies this, vault
      ensures Model() == Step(old(Model()), LateMintAnswered(mint, here))
    {
      lateMints := lateMints - 1;
      if mint.Page? {
        var stored := vault.PutSession(mint.secret, mint.csrf, mint.origin, here);
      }
    }

    /** The tracked promise clears itself from `shared` once it has settled. */
    method OnSharedSettled()
      requires shared.Some? && shared.value < |recoveries| && recoveries[shared.value].Settled?
      modifies this`shared
      ensures Model() == Step(old(Model()), SharedCleared)
    {
      shared := None;
    }

    /** The rest of `recover` after its await: one more send if there is a credential to send with. */
    method OnShared(c: nat)
      requires Enabled(Model(), SharedDelivered(c))
      modifies this
      ensures Model() == Step(old(Model()), SharedDelivered(c))
    {
      var next := recoveries[calls[c].phase.recovery].result;
      if next.None? || next.value == "" {
        Finish(c);
        return;
      }
      calls := calls[c := Call(AwaitRetry(next.value), calls[c].sends + 1)];
    }
  }
}
