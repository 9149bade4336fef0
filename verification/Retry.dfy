// Bounded retries around a call that may fail.
module Retry {
  import opened Wrappers

  // How one call turns out.
  datatype Outcome<T, E> = Returned(value: T) | Raised(error: E)

  // `NoAttempt` is the implicit None of a loop that never runs.
  datatype Retried<T, E> = Got(value: T) | GaveUp(error: E) | TimedOut | NoAttempt

  // The first of the outcomes that is wanted.
  function FirstWanted<T, E>(outcomes: seq<Outcome<T, E>>, wanted: T -> bool): (i: Option<nat>)
    ensures i.Some? ==>
              && i.value < |outcomes| && outcomes[i.value].Returned? && wanted(outcomes[i.value].value)
              && forall j | 0 <= j < i.value :: outcomes[j].Returned? ==> !wanted(outcomes[j].value)
    ensures i.None? ==> forall j | 0 <= j < |outcomes| :: outcomes[j].Returned? ==> !wanted(outcomes[j].value)
  {
    if outcomes == [] then None
    else if outcomes[0].Returned? && wanted(outcomes[0].value) then Some(0)
    else
      assert forall j | 1 <= j < |outcomes| :: outcomes[j] == outcomes[1..][j - 1];
      match FirstWanted(outcomes[1..], wanted)
      case Some(k) => Some(k + 1)
      case None => None
  }

  // The first of the calls that does not raise.
  function FirstReturned<T, E>(outcomes: seq<Outcome<T, E>>): (i: Option<nat>)
    ensures i.Some? ==>
              i.value < |outcomes| && outcomes[i.value].Returned? && forall j | 0 <= j < i.value :: outcomes[j].Raised?
    ensures i.None? ==> forall j | 0 <= j < |outcomes| :: outcomes[j].Raised?
  {
    if outcomes == [] then None
    else if outcomes[0].Returned? then Some(0)
    else
      assert forall j | 1 <= j < |outcomes| :: outcomes[j] == outcomes[1..][j - 1];
      match FirstReturned(outcomes[1..])
      case Some(k) => Some(k + 1)
      case None => None
  }

  // coroutine_with_retry: the first call that does not raise decides; otherwise the last exception is raised.
  method WithRetry<T, E>(calls: seq<Outcome<T, E>>, maxAttempts: int) returns (r: Retried<T, E>, made: nat)
    requires maxAttempts <= |calls|
    ensures maxAttempts <= 0 ==> r == NoAttempt && made == 0
    ensures maxAttempts >= 1 ==>
              match FirstReturned(calls[..maxAttempts])
              case Some(i) => made == i + 1 && calls[i].Returned? && r == Got(calls[i].value)
              case None => made == maxAttempts && calls[made - 1].Raised? && r == GaveUp(calls[made - 1].error)
  {
    made := 0;
    assert forall j | 0 <= j < maxAttempts :: calls[..maxAttempts][j] == calls[j];
    while made < maxAttempts
      invariant 0 <= made <= |calls| && (if maxAttempts >= 1 then made < maxAttempts else made == 0)
      invariant forall j | 0 <= j < made :: calls[j].Raised?
    {
      var outcome := calls[made];
      made := made + 1;
      if outcome.Returned? {
        return Got(outcome.value), made;
      }
      if made == maxAttempts {
        return GaveUp(outcome.error), made;
      }
    }
    r := NoAttempt;
  }

  // coroutine_with_retry_until_value: the first call that returns the expected value decides; running out
  // of attempts is a timeout, whether the last call raised or returned something else.
  method WithRetryUntilValue<T, E>(calls: seq<Outcome<T, E>>, expected: T -> bool, maxAttempts: int)
    returns (r: Retried<T, E>, made: nat)
    requires maxAttempts <= |calls|
    ensures maxAttempts <= 0 ==> r == NoAttempt && made == 0
    ensures maxAttempts >= 1 ==>
              match FirstWanted(calls[..maxAttempts], expected)
              case Some(i) => made == i + 1 && calls[i].Returned? && r == Got(calls[i].value)
              case None => made == maxAttempts && r == TimedOut
  {
    made := 0;
    assert forall j | 0 <= j < maxAttempts :: calls[..maxAttempts][j] == calls[j];
    while made < maxAttempts
      invariant 0 <= made <= |calls| && (if maxAttempts >= 1 then made < maxAttempts else made == 0)
      invariant forall j | 0 <= j < made :: calls[j].Returned? ==> !expected(calls[j].value)
    {
      var outcome := calls[made];
      made := made + 1;
      if outcome.Returned? && expected(outcome.value) {
        return Got(outcome.value), made;
      }
      if made == maxAttempts {
        return TimedOut, made;
      }
    }
    r := NoAttempt;
  }
}
