/** Retrying a device call: which API errors are worth retrying
    (`backoff_error`) and what a retried call comes to. */
module Retry {
  import opened Wrappers
  import opened Client

  /** `backoff::Error`: give up at once, or try again. */
  datatype Backoff = Permanent(error: ApiError) | Transient(error: ApiError)

  /** `backoff_error`: errors raised while building a request cannot be cured
      by asking again; every other error can. */
  function BackoffError(e: ApiError): (b: Backoff)
    ensures b.error == e
    ensures b.Permanent? <==> e.BuildUrl? || e.BuildRequest? || e.InvalidBacklight? || e.InvalidValue?
  {
    match e
    case BuildUrl => Permanent(e)
    case BuildRequest => Permanent(e)
    case InvalidBacklight => Permanent(e)
    case InvalidValue => Permanent(e)
    case _ => Transient(e)
  }

  /** An attempt that failed and may be made again. */
  predicate RetriableFailure(o: Outcome<ApiError>) {
    o.Fail? && BackoffError(o.error).Transient?
  }

  /** The outcomes of the successive attempts of one call, as many as the
      backoff policy allows before it gives up; there is always a first one. */
  type Attempts = s: seq<Outcome<ApiError>> | |s| > 0 witness [Pass]

  /** A retried call: its final outcome and how many attempts it took. */
  datatype Retried = Retried(outcome: Outcome<ApiError>, tries: nat)

  /** `retry_notify` with `backoff_error`: attempts are made in order until
      one succeeds, one fails permanently, or the policy allows no more; the
      result is the last attempt's outcome. */
  function Retry(attempts: Attempts): (r: Retried)
    ensures 1 <= r.tries <= |attempts|
    ensures r.outcome == attempts[r.tries - 1]
    ensures forall j :: 0 <= j < r.tries - 1 ==> RetriableFailure(attempts[j])
    ensures r.tries < |attempts| ==> !RetriableFailure(attempts[r.tries - 1])
    decreases |attempts|
  {
    if |attempts| == 1 || !RetriableFailure(attempts[0]) then Retried(attempts[0], 1)
    else
      var rest := Retry(attempts[1..]);
      Retried(rest.outcome, rest.tries + 1)
  }

  /** A retried call succeeds exactly when some attempt succeeds after
      nothing but retriable failures. */
  lemma RetrySucceeds(attempts: Attempts)
    ensures Retry(attempts).outcome.Pass? <==>
              exists i :: 0 <= i < |attempts| && attempts[i].Pass?
                          && forall j :: 0 <= j < i ==> RetriableFailure(attempts[j])
  {
    var r := Retry(attempts);
    if exists i :: 0 <= i < |attempts| && attempts[i].Pass?
                   && forall j :: 0 <= j < i ==> RetriableFailure(attempts[j]) {
      var i :| 0 <= i < |attempts| && attempts[i].Pass?
               && forall j :: 0 <= j < i ==> RetriableFailure(attempts[j]);
      assert !RetriableFailure(attempts[i]);
      assert r.tries - 1 == i;
    }
  }

  /** A permanent error is never retried: the call ends with it. */
  lemma RetryStopsAtPermanent(attempts: Attempts, i: nat)
    requires i < |attempts| && attempts[i].Fail? && BackoffError(attempts[i].error).Permanent?
    requires forall j :: 0 <= j < i ==> RetriableFailure(attempts[j])
    ensures Retry(attempts) == Retried(attempts[i], i + 1)
  {
  }
}
