/**
 * The lease of one received message, as a state machine. Each disposition
 * runs under the manager's lock from the guard to the setting of the flag, so
 * it is one atomic step here. The broker is not modelled: every call the
 * manager makes is appended to a log together with the outcome the broker
 * gave it, which is a parameter of the step.
 */
module LockState {
  import opened Wrappers
  import opened MessageProperties
  import Renewal

  datatype MessageAction = Complete | Abandon | DeadLetter

  /** The received message: its id, its lock token, when its lock expires (in ticks) and its user properties. */
  datatype LockMessage = LockMessage(messageId: string, lockToken: string, lockedUntilTicks: int, userProperties: Properties)

  /** A terminal operation of the receiver client: Complete takes no property bag, the other two do. */
  datatype Request =
    | CompleteRequest(lockToken: string)
    | AbandonRequest(lockToken: string, properties: Properties)
    | DeadLetterRequest(lockToken: string, properties: Properties)
  {
    function Action(): MessageAction
    {
      match this
      case CompleteRequest(_) => Complete
      case AbandonRequest(_, _) => Abandon
      case DeadLetterRequest(_, _) => DeadLetter
    }
  }

  datatype BrokerOutcome = Succeeded | Failed

  /** One call the manager made to the broker, with the outcome the broker gave it. */
  datatype BrokerCall = BrokerCall(request: Request, outcome: BrokerOutcome)

  /**
   * The renewal timer handle: none, a timer armed to fire once after the given
   * number of ticks, or a timer that still exists but will not fire.
   */
  datatype Timer = NoTimer | Armed(dueTicks: int) | Stopped

  /**
   * What a manager is built with and never changes: the message (absent for a
   * null message) and whether the cancellation token it observes belongs to
   * the shared source it may cancel.
   */
  datatype Config = Config(message: Option<LockMessage>, tokenFollowsSource: bool)

  /**
   * The fields a disposition reads and writes: the sticky actioned flag, the
   * timer, whether the token reports cancellation, whether and when the
   * manager cancelled the shared source (the number of broker calls made by
   * then), and the broker calls made so far.
   */
  datatype State = State(
    actioned: bool,
    timer: Timer,
    tokenCancelled: bool,
    sourceCancelledAt: Option<nat>,
    calls: seq<BrokerCall>)

  /** A freshly built manager. */
  function Initial(tokenCancelled: bool): (s: State)
    ensures !s.actioned && !s.timer.Armed? && s.tokenCancelled == tokenCancelled
    ensures s.sourceCancelledAt.None? && SuccessCount(s.calls) == 0 && |s.calls| == 0
  {
    State(false, NoTimer, tokenCancelled, None, [])
  }

  /** The broker operation a disposition of the message issues. */
  function RequestFor(message: LockMessage, action: MessageAction, error: Option<string>): (request: Request)
    ensures request.lockToken == message.lockToken
    ensures request.Action() == action
    ensures !request.CompleteRequest? ==> request.properties == GetProperties(message.userProperties, error)
  {
    match action
    case Complete => CompleteRequest(message.lockToken)
    case Abandon => AbandonRequest(message.lockToken, GetProperties(message.userProperties, error))
    case DeadLetter => DeadLetterRequest(message.lockToken, GetProperties(message.userProperties, error))
  }

  datatype Guarded = Guarded(ok: bool, state: State)

  /**
   * The guard run before a broker call: refuses when the token is cancelled or
   * the message is already actioned, and otherwise disposes of the timer
   * before it refuses an absent message.
   */
  function CanAction(s: State, message: Option<LockMessage>): (g: Guarded)
    ensures g.ok <==> !s.tokenCancelled && !s.actioned && message.Some?
    ensures g.state == (if s.tokenCancelled || s.actioned then s else s.(timer := NoTimer))
  {
    if s.tokenCancelled then Guarded(false, s)
    else if s.actioned then Guarded(false, s)
    else
      var cleared := s.(timer := NoTimer);
      if message.None? then Guarded(false, cleared) else Guarded(true, cleared)
  }

  /**
   * One disposition: the guard, then the broker call, then the flag, which is
   * set only when the broker call succeeded. A failed call is swallowed.
   */
  function DoAction(s: State, message: Option<LockMessage>, action: MessageAction, error: Option<string>,
                    outcome: BrokerOutcome): (s': State)
    ensures s.tokenCancelled || s.actioned ==> s' == s
    ensures !s.tokenCancelled && !s.actioned ==> s'.timer == NoTimer
    ensures s'.tokenCancelled == s.tokenCancelled && s'.sourceCancelledAt == s.sourceCancelledAt
    ensures s.calls <= s'.calls && |s'.calls| <= |s.calls| + 1
    ensures |s'.calls| > |s.calls| <==> !s.tokenCancelled && !s.actioned && message.Some?
    ensures |s'.calls| > |s.calls| ==>
              s'.calls[|s.calls|] == BrokerCall(RequestFor(message.value, action, error), outcome)
    ensures s'.actioned <==> s.actioned || (|s'.calls| > |s.calls| && outcome == Succeeded)
  {
    var g := CanAction(s, message);
    if !g.ok then g.state
    else
      var call := BrokerCall(RequestFor(message.value, action, error), outcome);
      g.state.(calls := g.state.calls + [call], actioned := outcome == Succeeded)
  }

  /**
   * Session start for a present message: a deadline of nine tenths of the
   * lock's remaining time; a negative deadline abandons at once with no error
   * and arms nothing, any other arms the timer for that deadline.
   */
  function InitializeSession(s: State, message: LockMessage, nowTicks: int, outcome: BrokerOutcome): (s': State)
    ensures message.lockedUntilTicks < nowTicks ==> s' == DoAction(s, Some(message), Abandon, None, outcome)
    ensures message.lockedUntilTicks >= nowTicks ==>
              s' == s.(timer := Armed(Renewal.RenewInterval(message.lockedUntilTicks - nowTicks)))
  {
    var interval := Renewal.RenewInterval(message.lockedUntilTicks - nowTicks);
    if interval < 0 then DoAction(s, Some(message), Abandon, None, outcome)
    else s.(timer := Armed(interval))
  }

  /** The manager signals the shared source; the token sees it when it belongs to that source. */
  function CancelSource(s: State, config: Config): (s': State)
    ensures s'.sourceCancelledAt.Some?
    ensures s.sourceCancelledAt.None? ==> s'.sourceCancelledAt == Some(|s.calls|)
    ensures s'.tokenCancelled <==> s.tokenCancelled || config.tokenFollowsSource
    ensures s'.calls == s.calls && s'.actioned == s.actioned && s'.timer == s.timer
  {
    s.(sourceCancelledAt := if s.sourceCancelledAt.None? then Some(|s.calls|) else s.sourceCancelledAt,
       tokenCancelled := s.tokenCancelled || config.tokenFollowsSource)
  }

  /**
   * The timer firing: it stops the timer, abandons with no error through the
   * guarded disposition, and only then cancels the shared source.
   */
  function Callback(s: State, config: Config, outcome: BrokerOutcome): (s': State)
    ensures s'.sourceCancelledAt.Some?
    ensures s.sourceCancelledAt.None? ==> s'.sourceCancelledAt == Some(|s'.calls|)
    ensures s.calls <= s'.calls && |s'.calls| <= |s.calls| + 1
    ensures |s'.calls| > |s.calls| ==>
              config.message.Some? &&
              s'.calls[|s.calls|].request == AbandonRequest(config.message.value.lockToken, map[])
    ensures |s'.calls| > |s.calls| <==> !s.tokenCancelled && !s.actioned && config.message.Some?
    ensures s'.actioned <==> s.actioned || (|s'.calls| > |s.calls| && outcome == Succeeded)
    ensures !s'.timer.Armed?
    ensures s'.tokenCancelled <==> s.tokenCancelled || config.tokenFollowsSource
  {
    var stopped := if s.timer.NoTimer? then s else s.(timer := Stopped);
    var abandoned := DoAction(stopped, config.message, Abandon, None, outcome);
    CancelSource(abandoned, config)
  }

  /** Whatever can happen to one manager, one critical section at a time. */
  datatype Event =
    | InitializeCalled(nowTicks: int, outcome: BrokerOutcome)
    | CompleteCalled(outcome: BrokerOutcome)
    | AbandonCalled(error: Option<string>, outcome: BrokerOutcome)
    | DeadLetterCalled(error: Option<string>, outcome: BrokerOutcome)
    | DisposeCalled(outcome: BrokerOutcome)
    | TimerFired(outcome: BrokerOutcome)
    | TokenCancelled

  /**
   * The effect of one event. Session start with an absent message faults
   * before touching anything; a timer fires only while it is armed; the
   * caller may cancel its token at any time.
   */
  function Apply(s: State, config: Config, e: Event): (s': State)
    ensures s.calls <= s'.calls && |s'.calls| <= |s.calls| + 1
    ensures |s'.calls| > |s.calls| ==>
              && !s.tokenCancelled && !s.actioned && config.message.Some? && s'.timer == NoTimer
              && s'.calls[|s.calls|].request.Action() == EventAction(e)
    ensures s.actioned ==> s'.actioned
    ensures s.tokenCancelled ==> s'.tokenCancelled
  {
    match e
    case InitializeCalled(now, o) =>
      if config.message.None? then s else InitializeSession(s, config.message.value, now, o)
    case CompleteCalled(o) => DoAction(s, config.message, Complete, None, o)
    case AbandonCalled(err, o) => DoAction(s, config.message, Abandon, err, o)
    case DeadLetterCalled(err, o) => DoAction(s, config.message, DeadLetter, err, o)
    case DisposeCalled(o) => DoAction(s, config.message, Abandon, None, o)
    case TimerFired(o) => if s.timer.Armed? then Callback(s, config, o) else s
    case TokenCancelled => s.(tokenCancelled := true)
  }

  /** The disposition an event asks for, if it makes a broker call. */
  function EventAction(e: Event): MessageAction
  {
    match e
    case CompleteCalled(_) => Complete
    case DeadLetterCalled(_, _) => DeadLetter
    case _ => Abandon
  }

  /** The state after the events, in order. */
  function Run(s: State, config: Config, events: seq<Event>): State
    decreases |events|
  {
    if events == [] then s else Run(Apply(s, config, events[0]), config, events[1..])
  }

  /** How many of the calls the broker accepted. */
  function SuccessCount(calls: seq<BrokerCall>): nat
  {
    if calls == [] then 0
    else SuccessCount(calls[..|calls| - 1]) + (if calls[|calls| - 1].outcome == Succeeded then 1 else 0)
  }

  /**
   * The lease invariant: every broker call but the last failed, the flag is
   * set exactly when the last one succeeded, every call carries the message's
   * lock token, a timer exists only for a present message, and the source
   * was cancelled after calls the log already holds.
   */
  ghost predicate Inv(s: State, message: Option<LockMessage>)
  {
    && (forall i :: 0 <= i < |s.calls| - 1 ==> s.calls[i].outcome == Failed)
    && (s.actioned <==> |s.calls| > 0 && s.calls[|s.calls| - 1].outcome == Succeeded)
    && (|s.calls| > 0 || !s.timer.NoTimer? ==> message.Some?)
    && (message.Some? ==> forall i :: 0 <= i < |s.calls| ==> s.calls[i].request.lockToken == message.value.lockToken)
    && (s.sourceCancelledAt.Some? ==> s.sourceCancelledAt.value <= |s.calls|)
  }

  lemma InitialInv(tokenCancelled: bool, message: Option<LockMessage>)
    ensures Inv(Initial(tokenCancelled), message)
  {
  }

  /** Calls that all failed count no success. */
  lemma {:induction false} AllFailedCountNone(calls: seq<BrokerCall>)
    requires forall i :: 0 <= i < |calls| ==> calls[i].outcome == Failed
    ensures SuccessCount(calls) == 0
    decreases |calls|
  {
    if calls != [] {
      AllFailedCountNone(calls[..|calls| - 1]);
    }
  }

  /** Under the invariant the broker accepted one call if the message is actioned and none otherwise. */
  lemma InvCountsSuccesses(s: State, message: Option<LockMessage>)
    requires Inv(s, message)
    ensures SuccessCount(s.calls) == (if s.actioned then 1 else 0)
  {
    if s.calls != [] {
      AllFailedCountNone(s.calls[..|s.calls| - 1]);
    }
  }

  /** A disposition keeps the lease invariant. */
  lemma DoActionPreservesInv(s: State, message: Option<LockMessage>, action: MessageAction, error: Option<string>,
                             outcome: BrokerOutcome)
    requires Inv(s, message)
    ensures Inv(DoAction(s, message, action, error, outcome), message)
  {
  }

  /** So does every other event. */
  lemma ApplyPreservesInv(s: State, config: Config, e: Event)
    requires Inv(s, config.message)
    ensures Inv(Apply(s, config, e), config.message)
  {
  }

  /** And so does any sequence of events. */
  lemma {:induction false} RunPreservesInv(s: State, config: Config, events: seq<Event>)
    requires Inv(s, config.message)
    ensures Inv(Run(s, config, events), config.message)
    decreases |events|
  {
    if events != [] {
      ApplyPreservesInv(s, config, events[0]);
      RunPreservesInv(Apply(s, config, events[0]), config, events[1..]);
    }
  }

  /**
   * Whatever happens to a manager, the broker accepts at most one disposition
   * of its message, and accepts one exactly when the message is actioned.
   */
  lemma AtMostOneSuccessfulDisposition(config: Config, tokenCancelled: bool, events: seq<Event>)
    ensures SuccessCount(Run(Initial(tokenCancelled), config, events).calls) <= 1
    ensures SuccessCount(Run(Initial(tokenCancelled), config, events).calls) == 1
            <==> Run(Initial(tokenCancelled), config, events).actioned
  {
    RunPreservesInv(Initial(tokenCancelled), config, events);
    InvCountsSuccesses(Run(Initial(tokenCancelled), config, events), config.message);
  }

  /** Once the message is actioned, no event makes another broker call or clears the flag. */
  lemma {:induction false} ActionedIsSticky(s: State, config: Config, events: seq<Event>)
    requires s.actioned
    ensures Run(s, config, events).actioned
    ensures Run(s, config, events).calls == s.calls
    decreases |events|
  {
    if events != [] {
      var next := Apply(s, config, events[0]);
      assert next.actioned && next.calls == s.calls;
      ActionedIsSticky(next, config, events[1..]);
    }
  }

  /** Once the token reports cancellation, no event makes a broker call or changes the flag. */
  lemma {:induction false} CancelledIsSticky(s: State, config: Config, events: seq<Event>)
    requires s.tokenCancelled
    ensures Run(s, config, events).tokenCancelled
    ensures Run(s, config, events).actioned == s.actioned
    ensures Run(s, config, events).calls == s.calls
    decreases |events|
  {
    if events != [] {
      var next := Apply(s, config, events[0]);
      assert next.tokenCancelled && next.actioned == s.actioned && next.calls == s.calls;
      CancelledIsSticky(next, config, events[1..]);
    }
  }

  /** Every event that makes a broker call leaves no timer behind. */
  lemma NoTimerAfterCall(s: State, config: Config, e: Event)
    requires Apply(s, config, e).calls != s.calls
    ensures Apply(s, config, e).timer == NoTimer
  {
  }

  /**
   * A failed broker call leaves the message unactioned, so the next
   * disposition calls the broker again.
   */
  lemma FailedCallIsRetried(s: State, message: LockMessage, first: MessageAction, firstError: Option<string>,
                            second: MessageAction, secondError: Option<string>, outcome: BrokerOutcome)
    requires !s.tokenCancelled && !s.actioned
    ensures !DoAction(s, Some(message), first, firstError, Failed).actioned
    ensures DoAction(DoAction(s, Some(message), first, firstError, Failed), Some(message), second, secondError, outcome).calls
            == s.calls + [BrokerCall(RequestFor(message, first, firstError), Failed),
                          BrokerCall(RequestFor(message, second, secondError), outcome)]
  {
  }

  /** Dispose and the timer honour the caller's token: once it is cancelled they call nothing. */
  lemma CancelledTokenSilencesCleanup(s: State, config: Config, outcome: BrokerOutcome)
    requires s.tokenCancelled
    ensures Apply(s, config, DisposeCalled(outcome)) == s
    ensures Apply(s, config, TimerFired(outcome)).calls == s.calls
  {
  }

  /**
   * A session started after the lock expired abandons once, with an empty
   * bag, when the guard lets it, and arms no timer.
   */
  lemma InitializeExpiredLock(s: State, message: LockMessage, nowTicks: int, outcome: BrokerOutcome)
    requires message.lockedUntilTicks < nowTicks
    ensures !InitializeSession(s, message, nowTicks, outcome).timer.Armed? || s.timer.Armed?
    ensures InitializeSession(s, message, nowTicks, outcome) == DoAction(s, Some(message), Abandon, None, outcome)
    ensures !s.tokenCancelled && !s.actioned ==>
              InitializeSession(s, message, nowTicks, outcome).calls
              == s.calls + [BrokerCall(AbandonRequest(message.lockToken, map[]), outcome)]
  {
    Renewal.RenewIntervalSign(message.lockedUntilTicks - nowTicks);
  }

  /**
   * A session started while the lock holds calls nothing and arms the timer
   * for a deadline that falls no later than the lock's expiry.
   */
  lemma InitializeLiveLock(s: State, message: LockMessage, nowTicks: int, outcome: BrokerOutcome)
    requires message.lockedUntilTicks >= nowTicks
    ensures InitializeSession(s, message, nowTicks, outcome).calls == s.calls
    ensures InitializeSession(s, message, nowTicks, outcome).actioned == s.actioned
    ensures InitializeSession(s, message, nowTicks, outcome).timer.Armed?
    ensures 0 <= InitializeSession(s, message, nowTicks, outcome).timer.dueTicks <= message.lockedUntilTicks - nowTicks
    ensures InitializeSession(s, message, nowTicks, outcome)
            == s.(timer := Armed(Renewal.RenewInterval(message.lockedUntilTicks - nowTicks)))
  {
    Renewal.RenewIntervalSign(message.lockedUntilTicks - nowTicks);
  }

  /**
   * A message with ten minutes left on its lock that nobody disposes of: the
   * timer is armed for nine minutes, its firing abandons the message and then
   * cancels the source, and a later Complete reaches no broker.
   */
  lemma TimerAbandonsBeforeComplete(message: LockMessage, nowTicks: int)
    requires message.lockedUntilTicks == nowTicks + 10 * Renewal.TicksPerMinute
    ensures var config := Config(Some(message), false);
            var started := Apply(Initial(false), config, InitializeCalled(nowTicks, Succeeded));
            var fired := Apply(started, config, TimerFired(Succeeded));
            var completed := Apply(fired, config, CompleteCalled(Succeeded));
            && started.timer == Armed(9 * Renewal.TicksPerMinute)
            && completed.calls == [BrokerCall(AbandonRequest(message.lockToken, map[]), Succeeded)]
            && completed.sourceCancelledAt == Some(1)
  {
    Renewal.TenMinutesGiveNine();
  }
}
