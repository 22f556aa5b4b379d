/**
 * The manager object itself: fields the dispositions update in place, each
 * method proved to move the fields exactly as the matching step of LockState
 * does, and so to keep the lease invariant.
 */
module LockManager {
  import opened Wrappers
  import opened MessageProperties
  import opened LockState
  import Renewal

  class MessageLockManager {
    const message: Option<LockMessage>
    const tokenFollowsSource: bool

    var isMessageActioned: bool
    var timer: Timer
    /** Whether the caller's cancellation token reports cancellation. */
    var tokenCancelled: bool
    /** Whether the manager cancelled the shared source. */
    var sourceCancelled: bool
    /** How many broker calls the manager had made when it cancelled the shared source. */
    ghost var callsBeforeCancel: nat
    /** The calls made to the receiver client, with the outcomes it gave. */
    ghost var calls: seq<BrokerCall>

    function Config(): Config
    {
      LockState.Config(message, tokenFollowsSource)
    }

    ghost function State(): State
      reads this
    {
      var cancelledAt := if sourceCancelled then Some(callsBeforeCancel) else None;
      LockState.State(isMessageActioned, timer, tokenCancelled, cancelledAt, calls)
    }

    ghost predicate Valid()
      reads this
    {
      Inv(State(), message)
    }

    constructor (message: Option<LockMessage>, tokenFollowsSource: bool, tokenCancelled: bool)
      ensures Valid()
      ensures this.message == message && this.tokenFollowsSource == tokenFollowsSource
      ensures State() == Initial(tokenCancelled)
    {
      this.message := message;
      this.tokenFollowsSource := tokenFollowsSource;
      isMessageActioned := false;
      timer := NoTimer;
      this.tokenCancelled := tokenCancelled;
      sourceCancelled := false;
      callsBeforeCancel := 0;
      calls := [];
    }

    method CanAction() returns (ok: bool)
      modifies this`timer
      ensures ok == LockState.CanAction(old(State()), message).ok
      ensures State() == LockState.CanAction(old(State()), message).state
    {
      if tokenCancelled {
        return false;
      }
      if isMessageActioned {
        return false;
      }
      timer := NoTimer;
      if message.None? {
        return false;
      }
      return true;
    }

    method DoActionAsync(action: MessageAction, error: Option<string>, outcome: BrokerOutcome)
      requires Valid()
      modifies this
      ensures Valid()
      ensures State() == DoAction(old(State()), message, action, error, outcome)
    {
      ghost var before := State();
      var ok := CanAction();
      if !ok {
        DoActionPreservesInv(before, message, action, error, outcome);
        return;
      }
      var request;
      match action {
        case Complete =>
          request := CompleteRequest(message.value.lockToken);
        case Abandon =>
          request := AbandonRequest(message.value.lockToken, GetProperties(message.value.userProperties, error));
        case DeadLetter =>
          request := DeadLetterRequest(message.value.lockToken, GetProperties(message.value.userProperties, error));
      }
      calls := calls + [BrokerCall(request, outcome)];
      if outcome == Succeeded {
        isMessageActioned := true;
      }
      DoActionPreservesInv(before, message, action, error, outcome);
    }

    /** Starts the session; faulted when there is no message to read the lock expiry from. */
    method InitializeSession(nowTicks: int, outcome: BrokerOutcome) returns (faulted: bool)
      requires Valid()
      modifies this
      ensures Valid()
      ensures faulted <==> message.None?
      ensures State() == Apply(old(State()), Config(), InitializeCalled(nowTicks, outcome))
    {
      if message.None? {
        return true;
      }
      var interval := Renewal.RenewInterval(message.value.lockedUntilTicks - nowTicks);
      if interval < 0 {
        DoActionAsync(Abandon, None, outcome);
        return false;
      }
      timer := Armed(interval);
      return false;
    }

    method CompleteAsync(outcome: BrokerOutcome)
      requires Valid()
      modifies this
      ensures Valid()
      ensures State() == Apply(old(State()), Config(), CompleteCalled(outcome))
    {
      DoActionAsync(Complete, None, outcome);
    }

    method AbandonAsync(error: Option<string>, outcome: BrokerOutcome)
      requires Valid()
      modifies this
      ensures Valid()
      ensures State() == Apply(old(State()), Config(), AbandonCalled(error, outcome))
    {
      DoActionAsync(Abandon, error, outcome);
    }

    method DeadLetterAsync(error: Option<string>, outcome: BrokerOutcome)
      requires Valid()
      modifies this
      ensures Valid()
      ensures State() == Apply(old(State()), Config(), DeadLetterCalled(error, outcome))
    {
      DoActionAsync(DeadLetter, error, outcome);
    }

    method Dispose(outcome: BrokerOutcome)
      requires Valid()
      modifies this
      ensures Valid()
      ensures State() == Apply(old(State()), Config(), DisposeCalled(outcome))
    {
      AbandonAsync(None, outcome);
    }

    /** The armed timer firing. */
    method Callback(outcome: BrokerOutcome)
      requires Valid()
      requires timer.Armed?
      modifies this
      ensures Valid()
      ensures State() == Apply(old(State()), Config(), TimerFired(outcome))
      ensures sourceCancelled && !timer.Armed?
    {
      if timer != NoTimer {
        timer := Stopped;
      }
      AbandonAsync(None, outcome);
      if !sourceCancelled {
        sourceCancelled := true;
        callsBeforeCancel := |calls|;
      }
      tokenCancelled := tokenCancelled || tokenFollowsSource;
    }

    /** The caller cancels the token it gave the manager. */
    method CancelToken()
      requires Valid()
      modifies this`tokenCancelled
      ensures Valid()
      ensures State() == Apply(old(State()), Config(), TokenCancelled)
    {
      tokenCancelled := true;
    }
  }
}
