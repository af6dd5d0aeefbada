/**
 * The load-with-one-retry policy of CodeBucket's `LoadableViewModel`
 * (CodeBucket.Core/ViewModels/LoadableViewModel.cs).
 *
 * The abstract `Load()` of a concrete view model is a parameter `load`:
 * `load(k)` is how the (k+1)-th call of `Load()` settles. The observable
 * effects (calls of `Load()`, the 100 ms back-off, assignments of
 * `IsLoading`, alerts and debug output) are recorded as events.
 */
module ViewModels {

  /** The exceptions `Load()` can throw, as the catch clauses tell them apart. */
  datatype Failure =
    | WebException(message: string)
    | OperationCanceled(message: string)
    | OtherException(message: string)

  /** How one awaited task settles: it returns, or it throws. */
  datatype Outcome = Completed | Threw(error: Failure)

  /** Observable effects, in the order they happen. */
  datatype Event =
    | LoadCalled                      // one call of the abstract Load()
    | Delayed(milliseconds: nat)      // await Task.Delay(...)
    | IsLoadingSet(value: bool)       // an assignment to the IsLoading property
    | Alert(text: string)             // DisplayAlert(...)
    | DebugLog(text: string)          // Debug.WriteLine(...)

  /** What one run of the retry loop produced: how it settled and what it did. */
  datatype Run = Run(outcome: Outcome, events: seq<Event>)

  const RetryDelay: nat := 100
  const AlertPrefix := "The request to load this item did not complete successfuly! "
  const CancelPrefix := "The operation was canceled: "

  predicate IsWebFailure(o: Outcome) {
    o.Threw? && o.error.WebException?
  }

  /**
   * Reference definition of the retry policy, unrolled: a second call of
   * `Load()`, preceded by the back-off, happens exactly when the first call
   * threw a `WebException`; whatever the second call does is final.
   */
  function RetryPolicy(load: nat -> Outcome): (r: Run)
    // Load() runs at most twice, and the only delay sits between the two calls
    ensures r.events == [LoadCalled] || r.events == [LoadCalled, Delayed(RetryDelay), LoadCalled]
    // the second call happens if and only if the first threw a WebException
    ensures r.events == [LoadCalled, Delayed(RetryDelay), LoadCalled] <==> IsWebFailure(load(0))
    // a success on either call ends the loop normally
    ensures r.outcome == Completed <==> load(0) == Completed || (IsWebFailure(load(0)) && load(1) == Completed)
    // any other failure of the first call propagates at once, cancellation included
    ensures load(0).Threw? && !IsWebFailure(load(0)) ==> r == Run(load(0), [LoadCalled])
    // after a retry, whatever the second call does is final: a second WebException
    // is rethrown, not retried, and a cancellation or other failure propagates as is
    ensures IsWebFailure(load(0)) ==> r.outcome == load(1)
  {
    if IsWebFailure(load(0)) then Run(load(1), [LoadCalled, Delayed(RetryDelay), LoadCalled])
    else Run(load(0), [LoadCalled])
  }

  /** What the catch clauses of HandleLoadCommand do with the way loading settled. */
  function Report(outcome: Outcome): (r: seq<Event>)
    ensures |r| <= 1
    ensures outcome == Completed ==> r == []
    // a cancellation is only written to the debug output
    ensures outcome.Threw? && outcome.error.OperationCanceled? ==>
              r == [DebugLog(CancelPrefix + outcome.error.message)]
    // any other failure becomes one alert: the fixed prefix, then the message
    ensures (exists i :: 0 <= i < |r| && r[i].Alert?) <==> outcome.Threw? && !outcome.error.OperationCanceled?
    ensures forall i :: 0 <= i < |r| && r[i].Alert? ==> r[i].text == AlertPrefix + outcome.error.message
  {
    match outcome
    case Completed => []
    case Threw(OperationCanceled(m)) => [DebugLog(CancelPrefix + m)]
    case Threw(e) =>
      var r := [Alert(AlertPrefix + e.message)];
      assert r[0].Alert?;
      r
  }

  /**
   * Everything one run of HandleLoadCommand does: IsLoading is set before
   * loading starts, is set back only at the very end, and exactly the
   * failures other than cancellation produce one alert, with the message
   * appended to the fixed prefix.
   */
  function HandleLoadEvents(load: nat -> Outcome): (r: seq<Event>)
    ensures |r| >= 3 && r[0] == IsLoadingSet(true) && r[|r| - 1] == IsLoadingSet(false)
    ensures forall i :: 0 < i < |r| - 1 ==> !r[i].IsLoadingSet?
    ensures (exists i :: 0 <= i < |r| && r[i].Alert?) <==>
              RetryPolicy(load).outcome.Threw? && !RetryPolicy(load).outcome.error.OperationCanceled?
    ensures forall i, j :: 0 <= i < |r| && 0 <= j < |r| && r[i].Alert? && r[j].Alert? ==> i == j
    ensures forall i :: 0 <= i < |r| && r[i].Alert? ==>
              r[i].text == AlertPrefix + RetryPolicy(load).outcome.error.message
    // the calls of Load() and the back-off all happen while IsLoading is true
    ensures forall i :: 0 <= i < |r| && (r[i].LoadCalled? || r[i].Delayed?) ==> 0 < i < |r| - 1
    // right after IsLoading is set come exactly the calls and delay of the retry loop, and no others
    ensures |RetryPolicy(load).events| + 1 < |r| && r[1..|RetryPolicy(load).events| + 1] == RetryPolicy(load).events
    ensures forall i :: |RetryPolicy(load).events| + 1 <= i < |r| ==> !r[i].LoadCalled? && !r[i].Delayed?
    // between the retry loop and the reset come exactly the catch clauses' events
    ensures r[|RetryPolicy(load).events| + 1 .. |r| - 1] == Report(RetryPolicy(load).outcome)
  {
    var run := RetryPolicy(load);
    var r := [IsLoadingSet(true)] + run.events + Report(run.outcome) + [IsLoadingSet(false)];
    // the alert, when there is one, is the event just before the reset
    assert Report(run.outcome) != [] ==> r[|r| - 2] == Report(run.outcome)[0];
    r
  }

  class LoadableViewModel {
    /** The `_isLoading` field behind the IsLoading property. */
    var isLoading: bool
    /** Every observable effect so far. */
    var trace: seq<Event>

    constructor ()
      ensures !isLoading && trace == []
    {
      isLoading := false;
      trace := [];
    }

    /** The public IsLoading setter. */
    method SetIsLoading(value: bool)
      modifies this
      ensures isLoading == value
      ensures trace == old(trace) + [IsLoadingSet(value)]
    {
      isLoading := value;
      trace := trace + [IsLoadingSet(value)];
    }

    /** The can-execute predicate of LoadCommand. */
    predicate CanExecuteLoad()
      reads this
    {
      !isLoading
    }

    /**
     * The retry loop: `Load()` is awaited; a `WebException` of the first
     * call sets `retry` and goes round once more, after the back-off.
     */
    method LoadResource(load: nat -> Outcome) returns (outcome: Outcome, events: seq<Event>)
      ensures Run(outcome, events) == RetryPolicy(load)
    {
      var retry := false;
      var calls: nat := 0;
      events := [];
      while true
        invariant calls == (if retry then 1 else 0)
        invariant events == (if retry then [LoadCalled] else [])
        invariant retry ==> IsWebFailure(load(0))
        decreases if retry then 0 else 1
      {
        if retry {
          events := events + [Delayed(RetryDelay)];
        }
        events := events + [LoadCalled];
        var settled := load(calls);
        calls := calls + 1;
        if !IsWebFailure(settled) {
          outcome := settled;
          return;
        }
        if retry {
          outcome := settled;
          return;
        }
        retry := true;
      }
    }

    /** The overridable hook; this class runs the retry loop. */
    method ExecuteLoadResource(load: nat -> Outcome) returns (outcome: Outcome, events: seq<Event>)
      ensures Run(outcome, events) == RetryPolicy(load)
    {
      outcome, events := LoadResource(load);
    }

    /**
     * The command handler: sets IsLoading, runs the load, turns every
     * failure into a debug line (cancellation) or one alert (anything else),
     * and resets IsLoading in the finally block. It has no failure result:
     * no exception escapes it.
     */
    method HandleLoadCommand(load: nat -> Outcome)
      modifies this
      ensures !isLoading
      ensures trace == old(trace) + HandleLoadEvents(load)
    {
      SetIsLoading(true);
      var outcome, events := ExecuteLoadResource(load);
      trace := trace + events;
      match outcome {
        case Completed =>
        case Threw(OperationCanceled(m)) =>
          trace := trace + [DebugLog(CancelPrefix + m)];
        case Threw(e) =>
          trace := trace + [Alert(AlertPrefix + e.message)];
      }
      SetIsLoading(false);
    }

    /**
     * Executing LoadCommand: the command runs its handler only when its
     * can-execute predicate holds, so a load is never started while
     * IsLoading is true.
     */
    method ExecuteLoadCommand(load: nat -> Outcome) returns (executed: bool)
      modifies this
      ensures executed == old(CanExecuteLoad())
      ensures !executed ==> isLoading && trace == old(trace)
      ensures executed ==> !isLoading && trace == old(trace) + HandleLoadEvents(load)
    {
      executed := CanExecuteLoad();
      if executed {
        HandleLoadCommand(load);
      }
    }
  }
}
