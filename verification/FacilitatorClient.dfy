/**
 The facilitator HTTP client: how one POST is classified, and the bounded retry loop
 around it.
 */
module FacilitatorClient {
  import opened Wrappers

  datatype ErrorCode = NETWORK_ERROR | TIMEOUT | BAD_HTTP_STATUS | BAD_RESPONSE_BODY

  datatype HttpError = HttpError(code: ErrorCode, status: Option<nat>)

  /** The body as far as it could be read; an empty body parses as null. */
  datatype Body<R> =
    | Unreadable
    | NotJson
    | Parsed(validated: Option<R>, isFailureBranch: bool)

  datatype FetchReply<R> = Threw(aborted: bool) | Answer(status: nat, body: Body<R>)

  function PostOnce<R>(reply: FetchReply<R>): Result<R, HttpError> {
    match reply
    case Threw(aborted) => Err(HttpError(if aborted then TIMEOUT else NETWORK_ERROR, None))
    case Answer(status, Unreadable) => Err(HttpError(BAD_RESPONSE_BODY, Some(status)))
    case Answer(status, NotJson) => Err(HttpError(BAD_RESPONSE_BODY, Some(status)))
    case Answer(status, Parsed(validated, isFailureBranch)) =>
      if !(200 <= status < 300) then
        if status == 400 && isFailureBranch && validated.Some? then Ok(validated.value)
        else Err(HttpError(BAD_HTTP_STATUS, Some(status)))
      else if validated.None? then Err(HttpError(BAD_RESPONSE_BODY, Some(status)))
      else Ok(validated.value)
  }

  /** A result comes exactly from a body of the right shape under a 2xx, or under a 400 whose body is the failure branch. */
  lemma PostOnceIff<R>(reply: FetchReply<R>, result: R)
    ensures PostOnce(reply) == Ok(result) <==>
      && reply.Answer? && reply.body.Parsed? && reply.body.validated == Some(result)
      && (200 <= reply.status < 300 || (reply.status == 400 && reply.body.isFailureBranch))
  {
  }

  /** And each error from its own cause, carrying the status whenever there was an answer. */
  lemma PostOnceErrors<R>(reply: FetchReply<R>)
    requires PostOnce(reply).Err?
    ensures
      var HttpError(code, status) := PostOnce(reply).error;
      && (status == if reply.Answer? then Some(reply.status) else None)
      && match code
         case NETWORK_ERROR => reply == Threw(false)
         case TIMEOUT => reply == Threw(true)
         case BAD_HTTP_STATUS => reply.Answer? && reply.body.Parsed? && !(200 <= reply.status < 300)
         case BAD_RESPONSE_BODY =>
           && reply.Answer?
           && (reply.body.Parsed? ==> 200 <= reply.status < 300 && reply.body.validated.None?)
  {
  }

  predicate IsRetryable(e: HttpError) {
    || e.code.NETWORK_ERROR?
    || e.code.TIMEOUT?
    || (e.code.BAD_HTTP_STATUS? && e.status.Some? && e.status.value >= 500)
  }

  predicate Retries<R>(reply: FetchReply<R>) {
    PostOnce(reply).Err? && IsRetryable(PostOnce(reply).error)
  }

  /** The policy as documented: network errors, timeouts and every HTTP 5xx are tried again. */
  predicate PromisedRetry<R>(reply: FetchReply<R>) {
    reply.Threw? || reply.status >= 500
  }

  /**
   The code keeps that promise for a reply if and only if the reply is not a 5xx whose
   body cannot be read as JSON: such a reply, a proxy's HTML error page say, is final.
   */
  lemma RetriesAsPromisedIff<R>(reply: FetchReply<R>)
    ensures (Retries(reply) <==> PromisedRetry(reply)) <==>
      !(reply.Answer? && reply.status >= 500 && !reply.body.Parsed?)
  {
  }

  lemma HtmlErrorPageIsFinal<R>()
    ensures exists reply: FetchReply<R> :: PromisedRetry(reply) && !Retries(reply)
  {
    var reply: FetchReply<R> := Answer(502, NotJson);
    assert PromisedRetry(reply) && !Retries(reply);
  }

  // ----- the retry loop -----

  datatype Request<B> = Request(path: string, body: B, headers: map<string, string>)

  /** Before retry `k` the loop sleeps `backoffMs * k`. */
  function TotalSleep(backoffMs: real, tries: nat): real {
    if tries <= 1 then 0.0 else TotalSleep(backoffMs, tries - 1) + backoffMs * (tries - 1) as real
  }

  lemma {:induction false} TotalSleepClosed(backoffMs: real, tries: nat)
    ensures 2.0 * TotalSleep(backoffMs, tries) == backoffMs * (tries * (tries - 1)) as real
  {
    if tries > 1 {
      TotalSleepClosed(backoffMs, tries - 1);
      var earlier, last := ((tries - 1) * (tries - 2)) as real, (tries - 1) as real;
      assert (tries * (tries - 1)) as real == earlier + 2.0 * last by {
        assert tries * (tries - 1) == (tries - 1) * (tries - 2) + 2 * (tries - 1);
      }
      Distribute(backoffMs, earlier, last);
    } else if tries == 1 {
      assert tries * (tries - 1) == 0;
    }
  }

  lemma Distribute(a: real, b: real, c: real)
    ensures a * (b + 2.0 * c) == a * b + 2.0 * (a * c)
  {
  }

  /**
   One logical request. It makes `k` tries, all with the very same path, body and headers,
   hence the same idempotency key; sleeps `TotalSleep`, that is backoffMs * k(k-1)/2, in all; and returns or
   throws the outcome of try `k`, which is either not retryable or the last one allowed.
   All earlier tries failed retryably.
   */
  method Post<B, R>(request: Request<B>, attempts: int, backoffMs: real, replies: nat -> FetchReply<R>)
    returns (r: Result<R, HttpError>, sent: seq<Request<B>>, slept: real)
    requires attempts >= 1 && backoffMs >= 0.0
    ensures 1 <= |sent| <= attempts && forall i | 0 <= i < |sent| :: sent[i] == request
    ensures slept == TotalSleep(backoffMs, |sent|)
    ensures forall i | 0 <= i < |sent| - 1 :: Retries(replies(i))
    ensures r == PostOnce(replies(|sent| - 1))
    ensures |sent| < attempts ==> !Retries(replies(|sent| - 1))
  {
    sent, slept := [], 0.0;
    var lastError: Option<HttpError> := None;
    var attempt := 0;
    while attempt < attempts
      invariant 0 <= attempt <= attempts && |sent| == attempt
      invariant forall i | 0 <= i < |sent| :: sent[i] == request
      invariant slept == TotalSleep(backoffMs, attempt)
      invariant forall i | 0 <= i < attempt :: Retries(replies(i))
      invariant attempt > 0 ==> lastError.Some? && PostOnce(replies(attempt - 1)) == Err(lastError.value)
    {
      if attempt > 0 {
        slept := slept + backoffMs * attempt as real;
      }
      sent := sent + [request];
      var outcome := PostOnce(replies(attempt));
      if outcome.Ok? || !IsRetryable(outcome.error) {
        return outcome, sent, slept;
      }
      lastError := Some(outcome.error);
      attempt := attempt + 1;
    }
    r := Err(lastError.value);
  }
}
