# Message lock manager

A model of `MessageLockManager`, the object that guards one message received
from an Azure Service Bus queue or topic subscription while a consumer
processes it. The manager decides whether a disposition — Complete, Abandon
or DeadLetter — may still be sent to the broker. It keeps a sticky
"actioned" flag and a one-shot renewal timer. When that timer fires, it
abandons the message itself and then cancels the shared cancellation source
of the work. For Abandon and DeadLetter it builds the property bag that tags
the message with the type names of the errors that hit it.

The model has four parts:

- `message_properties.dfy` (`MessageProperties`): the property bag,
  `GetProperties`. It also has the colon-joined tag chain that successive
  abandons build, and the proof that the chain reads back as the list of
  errors.
- `renewal.dfy` (`Renewal`): the renewal deadline. It is nine tenths of the
  ticks left on the lock, rounded half away from zero.
- `lock_state.dfy` (`LockState`): each disposition as one atomic step on a
  `State` value. The state holds the flag, the timer, the token, the
  source-cancel mark and the log of broker calls. `Event` and `Run` describe
  any sequence of calls, timer firings and token cancellations. The lemmas
  over `Run` prove the lease invariant. The main ones: at most one broker call
  ever succeeds; once the message is actioned, or the token is cancelled,
  nothing more reaches the broker.
- `lock_manager.dfy` (`LockManager`): the class `MessageLockManager`. Its
  fields are updated in place. Each method is proved to move them exactly as
  the matching `LockState` step does, so each method keeps the invariant.

The broker is not modelled. Each call the manager makes is appended to a
ghost log. The broker's outcome (`Succeeded` or `Failed`, a failure standing
for an exception thrown by the receiver client) is a parameter of each
operation. "Now" is a parameter of `InitializeSession`, in ticks. An error is
represented by its type name, and a property value by its string form.

Three points of the code the model keeps:

- A broker call that throws does not set the actioned flag. The exception is
  caught before line 118. The next disposition therefore calls the broker
  again (`FailedCallIsRetried`).
- `Dispose` and the timer callback both go through the guarded disposition,
  so neither calls the broker once the caller's token is cancelled
  (`CancelledTokenSilencesCleanup`). On that path the model treats the
  disposition as a quiet refusal; the fault the code raises there is under
  "Left out".
- The callback only stops the timer (`Change` to infinite). The guard is
  what disposes of it and clears it. The guard does this before it checks
  for a null message, so a null message still clears the timer.

## Model

| member | source | states |
|---|---|---|
| MessageProperties.GetProperties | src/ESFA.DC.Queueing/MessageLocking/MessageLockManager.cs:153-175 | no error gives an empty bag; with an error the bag has the single key "Exceptions", whose value is the incoming tag (if any), a ':' and then the error's type name |
| MessageProperties.Split | src/ESFA.DC.Queueing/MessageLocking/MessageLockManager.cs:164 | the reference inverse of the chain built at this line (not a model of it): at least one part, no part holds ':', and a single part only when the chain has no ':' |
| MessageProperties.JoinSplit | src/ESFA.DC.Queueing/MessageLocking/MessageLockManager.cs:164 | joining the parts of any chain with ':' gives the chain back, so Split loses nothing |
| MessageProperties.SplitAfterName | src/ESFA.DC.Queueing/MessageLocking/MessageLockManager.cs:164 | a type name without ':' stays whole at the front of a chain |
| MessageProperties.SplitJoin | src/ESFA.DC.Queueing/MessageLocking/MessageLockManager.cs:162-169 | a chain built by joining type names that hold no ':' splits back into exactly those names, in order |
| MessageProperties.ExceptionsChain | src/ESFA.DC.Queueing/MessageLocking/MessageLockManager.cs:162-169 | after a run of abandons (each bag merged into the user properties), "Exceptions" holds the earlier tag followed by every error's type name in order |
| MessageProperties.TagsReadBack | src/ESFA.DC.Queueing/MessageLocking/MessageLockManager.cs:162-169 | for a message that had no tag, the type names of the errors read back from the chain in the order they happened |
| Renewal.RenewInterval | src/ESFA.DC.Queueing/MessageLocking/MessageLockManager.cs:50-55 | the deadline is within half a tick of 0.9 times the remaining ticks, and a tie is rounded away from zero |
| Renewal.RenewIntervalUnique | src/ESFA.DC.Queueing/MessageLocking/MessageLockManager.cs:51-55 | any tick count that is nearest to 0.9 times the remaining ticks, with ties away from zero, equals the deadline |
| Renewal.RenewIntervalSign | src/ESFA.DC.Queueing/MessageLocking/MessageLockManager.cs:57 | the deadline is negative exactly when the lock has expired, and otherwise lies between zero and the remaining time |
| Renewal.TenMinutesGiveNine | src/ESFA.DC.Queueing/MessageLocking/MessageLockManager.cs:50-55 | ten minutes left on the lock give a nine-minute deadline |
| LockState.RequestFor | src/ESFA.DC.Queueing/MessageLocking/MessageLockManager.cs:103-116 | the broker operation matches the action and uses the message's lock token; Complete has no bag, Abandon and DeadLetter send the GetProperties bag |
| LockState.CanAction | src/ESFA.DC.Queueing/MessageLocking/MessageLockManager.cs:130-151 | the guard passes exactly when the token is not cancelled, the message is not actioned and is present; past the first two checks it clears the timer even when it then refuses |
| LockState.DoAction | src/ESFA.DC.Queueing/MessageLocking/MessageLockManager.cs:92-128 | when cancelled or actioned it changes nothing; otherwise it clears the timer and makes at most one broker call, exactly when the guard passes; the flag becomes set only by a successful call |
| LockState.Initial | src/ESFA.DC.Queueing/MessageLocking/MessageLockManager.cs:31-41 | a new manager is unactioned, has no timer, has made no broker call and has not cancelled the source; the token is as given |
| LockState.InitializeSession | src/ESFA.DC.Queueing/MessageLocking/MessageLockManager.cs:48-67 | a lock that has already expired gives exactly the guarded Abandon with no error; otherwise only the timer changes, armed for the rounded nine-tenths deadline |
| LockState.Apply | src/ESFA.DC.Queueing/MessageLocking/MessageLockManager.cs:43-90 | any one operation makes at most one broker call, only when the token is not cancelled, the message is unactioned and present, and then leaves no timer; the call is of the operation's kind; the flag and the token's cancellation never revert |
| LockState.CancelSource | src/ESFA.DC.Queueing/MessageLocking/MessageLockManager.cs:89 | the source is marked cancelled after the calls already made, and the token follows it when it belongs to that source; nothing else changes |
| LockState.Callback | src/ESFA.DC.Queueing/MessageLocking/MessageLockManager.cs:84-90 | the timer firing leaves no armed timer; it makes an Abandon with an empty bag exactly when the guard passes and no other call; the flag becomes set only by that call succeeding; the source is cancelled after that call |
| LockState.InitialInv | src/ESFA.DC.Queueing/MessageLocking/MessageLockManager.cs:31-41 | a newly built manager satisfies the lease invariant |
| LockState.AllFailedCountNone | src/ESFA.DC.Queueing/MessageLocking/MessageLockManager.cs:118 | a log of failed calls holds no success |
| LockState.InvCountsSuccesses | src/ESFA.DC.Queueing/MessageLocking/MessageLockManager.cs:118 | under the invariant, the broker accepted exactly one call if the message is actioned and none otherwise |
| LockState.DoActionPreservesInv | src/ESFA.DC.Queueing/MessageLocking/MessageLockManager.cs:92-128 | a disposition keeps the lease invariant |
| LockState.ApplyPreservesInv | src/ESFA.DC.Queueing/MessageLocking/MessageLockManager.cs:43-90 | every public operation, the timer firing and a token cancellation keep the lease invariant |
| LockState.RunPreservesInv | src/ESFA.DC.Queueing/MessageLocking/MessageLockManager.cs:43-128 | any sequence of events keeps the lease invariant |
| LockState.AtMostOneSuccessfulDisposition | src/ESFA.DC.Queueing/MessageLocking/MessageLockManager.cs:118 | from a new manager, whatever happens, the broker accepts at most one disposition, and accepts one exactly when the message is actioned |
| LockState.ActionedIsSticky | src/ESFA.DC.Queueing/MessageLocking/MessageLockManager.cs:137-140 | once actioned, no later event makes a broker call or clears the flag |
| LockState.CancelledIsSticky | src/ESFA.DC.Queueing/MessageLocking/MessageLockManager.cs:132-135 | once the token is cancelled, no later event makes a broker call or changes the flag |
| LockState.NoTimerAfterCall | src/ESFA.DC.Queueing/MessageLocking/MessageLockManager.cs:142-143 | every event that calls the broker leaves no timer |
| LockState.FailedCallIsRetried | src/ESFA.DC.Queueing/MessageLocking/MessageLockManager.cs:103-123 | a failed broker call is swallowed and leaves the message unactioned, so the next disposition calls the broker again |
| LockState.CancelledTokenSilencesCleanup | src/ESFA.DC.Queueing/MessageLocking/MessageLockManager.cs:132-135 | with the token cancelled, Dispose changes nothing and the timer firing calls nothing |
| LockState.InitializeExpiredLock | src/ESFA.DC.Queueing/MessageLocking/MessageLockManager.cs:57-62 | a session started after the lock expired is one guarded Abandon with no error, arms no timer, and calls the broker once with an empty bag when the guard passes |
| LockState.InitializeLiveLock | src/ESFA.DC.Queueing/MessageLocking/MessageLockManager.cs:64-66 | a session started while the lock holds changes only the timer, arming it for exactly the rounded nine-tenths deadline, which lies between zero and the lock's expiry; it calls nothing and leaves the flag, token and source alone |
| LockState.TimerAbandonsBeforeComplete | src/ESFA.DC.Queueing/MessageLocking/MessageLockManager.cs:48-90 | with ten minutes left the timer is armed for nine; its firing abandons and then cancels the source, and a later Complete reaches no broker |
| LockManager.MessageLockManager.constructor | src/ESFA.DC.Queueing/MessageLocking/MessageLockManager.cs:31-41 | a new manager is unactioned, has no timer and has called nothing |
| LockManager.MessageLockManager.CanAction | src/ESFA.DC.Queueing/MessageLocking/MessageLockManager.cs:130-151 | the guard's answer and the timer it leaves are those of LockState.CanAction |
| LockManager.MessageLockManager.DoActionAsync | src/ESFA.DC.Queueing/MessageLocking/MessageLockManager.cs:92-128 | the fields and the broker log move as LockState.DoAction says, and the invariant is kept |
| LockManager.MessageLockManager.InitializeSession | src/ESFA.DC.Queueing/MessageLocking/MessageLockManager.cs:48-67 | faults with no state change exactly when the message is absent; otherwise moves as LockState.InitializeSession |
| LockManager.MessageLockManager.CompleteAsync | src/ESFA.DC.Queueing/MessageLocking/MessageLockManager.cs:69-72 | a Complete disposition with no error |
| LockManager.MessageLockManager.AbandonAsync | src/ESFA.DC.Queueing/MessageLocking/MessageLockManager.cs:74-77 | an Abandon disposition with the given error |
| LockManager.MessageLockManager.DeadLetterAsync | src/ESFA.DC.Queueing/MessageLocking/MessageLockManager.cs:79-82 | a DeadLetter disposition with the given error |
| LockManager.MessageLockManager.Dispose | src/ESFA.DC.Queueing/MessageLocking/MessageLockManager.cs:43-46 | an Abandon disposition with no error, subject to the same guard |
| LockManager.MessageLockManager.Callback | src/ESFA.DC.Queueing/MessageLocking/MessageLockManager.cs:84-90 | stops the timer, abandons with no error, then cancels the source, moving the fields as LockState.Callback; no timer stays armed |
| LockManager.MessageLockManager.CancelToken | src/ESFA.DC.Queueing/MessageLocking/MessageLockManager.cs:132-135 | the caller's cancellation, which every later disposition observes |

## Left out

- Threads, the `SemaphoreSlim` and `async`/`await`: each disposition is one atomic step, in a serial order.
- Cancelled token: `WaitAsync` at line 96 then throws at once, the catch at line 120 logs it, and the `Release` at line 126 runs on a semaphore that was never taken and throws, so the disposition faults. The model makes such a disposition a quiet refusal: no broker call, no change, no fault reported to the caller.
- LockState.Callback: with the caller's token cancelled and the token not belonging to the shared source, the code's abandon faults (see above), the `Wait` at line 88 throws and `Cancel` at line 89 is never reached; the model still cancels the source on that path.
- LockManager.MessageLockManager.Callback: the same difference as LockState.Callback; with the token cancelled the method still sets `sourceCancelled`, where the code leaves the source uncancelled and throws out of the timer callback.
- `Task.Wait(token)` in `Dispose`: the wait itself throwing when the token is cancelled is not modelled. Only the disposition it waits for is.
- Timer scheduling: the timer fires only as a `TimerFired` event, and only while armed (`Callback` requires an armed timer). A callback that is already running when the timer is disposed is not modelled.
- LockManager.MessageLockManager.InitializeSession: a second call replaces the timer in the model. In the system, the first timer stays alive and can still fire.
- The receiver client is represented only by the log of calls and the outcome parameter. Wire semantics are not modelled, and neither is any exception other than a failed broker call.
- MessageProperties.ExceptionsChain assumes the broker merges the bag sent with an Abandon into the message's user properties on redelivery. That merge is the broker's behaviour, not the manager's.
- Logging (lines 59, 64, 86 and 122), including the minutes in the log text. The clock is a parameter.
- Renewal.RenewInterval: floating point (`Ticks * 0.9`, `Math.Round`), the cast to a 64-bit tick count and `TotalMilliseconds` are not modelled. The model uses exact integer rounding of 9 × ticks / 10, and "negative in milliseconds" as "negative in ticks".
- The `default` branch at line 115: it cannot be reached with a three-valued action.
- Exception objects: an error is its type name. Property values are their string form.
- `TopicConfiguration` and `IQueueConfiguration`: they only carry configuration. They are not part of this model.
