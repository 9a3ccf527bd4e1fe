/** The webhook dispatcher of the WebhookSender service. One polling loop
    consumes `payment-outcomes` with auto-commit disabled. For each outcome
    that deserialises it launches the webhook delivery without awaiting it
    and at once commits the message's offset, so the read position moves
    past the outcome whatever becomes of the delivery. The delivery POSTs
    the payload to the outcome's webhook URL under a retry policy (one
    attempt plus 5 retries, pausing 2^n seconds before retry n, retrying on
    an `HttpRequestException` or a non-success status); its final result is
    only logged.

    Poll results, commit results, HTTP outcomes and the clock are inputs. */
module Dispatcher {
  import opened Contracts
  import opened Effects
  import opened Retry

  /** Retries after the first POST. */
  const WebhookRetryCount: nat := 5

  /** How one `PostAsync` ends. */
  datatype HttpOutcome =
    | HttpResponse(statusCode: int)
    | HttpRequestError(message: string)     // HttpRequestException
    | OtherException(message: string)       // any other exception, e.g. a timeout

  /** `HttpResponseMessage.IsSuccessStatusCode`. */
  predicate IsSuccessStatusCode(code: int)
  {
    200 <= code <= 299
  }

  /** The policy handles `HttpRequestException` and non-success responses;
      any other exception escapes the policy on its first occurrence. */
  predicate RetriesOn(o: HttpOutcome)
  {
    o.HttpRequestError? || (o.HttpResponse? && !IsSuccessStatusCode(o.statusCode))
  }

  /** What `SendWebhook` logs at the end. */
  datatype DeliveryResult =
    | Delivered(statusCode: int)            // final response is a success
    | GaveUp(statusCode: int)               // retries spent on failure statuses
    | DeliveryFailed(message: string)       // an exception escaped the policy

  /** One delivery: the POSTs and pauses, and the logged result. */
  datatype Delivery = Delivery(trace: seq<Effect>, result: DeliveryResult)

  /** The body POSTed for an outcome; the timestamp is read once, before the
      first attempt, so every attempt sends the same body. */
  function PayloadFor(event: PaymentProcessed, now: Timestamp): WebhookPayload
  {
    WebhookPayload(event.transactionId, event.orderId, event.status, event.failureReason, now)
  }

  /** The run of the POST under the dispatcher's retry policy. */
  function WebhookRun(http: nat -> HttpOutcome): RetryRun<HttpOutcome>
  {
    RetryWithBackoff(http, RetriesOn, WebhookRetryCount)
  }

  /** `SendWebhook`: `http(n)` is how POST number n ends. */
  function SendWebhook(event: PaymentProcessed, http: nat -> HttpOutcome, now: Timestamp): (d: Delivery)
    // a delivery changes nothing durable, whatever its result: the result is only logged
    ensures NoDurable(d.trace)
    // every effect is the same POST to the outcome's URL, or a pause
    ensures forall i :: 0 <= i < |d.trace| ==>
              IsCallOrWait(d.trace[i], Post(event.webhookUrl, PayloadFor(event, now)))
    ensures d.result.Delivered? ==> IsSuccessStatusCode(d.result.statusCode)
    ensures d.result.GaveUp? ==> !IsSuccessStatusCode(d.result.statusCode)
  {
    var run := WebhookRun(http);
    var post := Post(event.webhookUrl, PayloadFor(event, now));
    AttemptTraceOnlyCallsAndWaits(post, run.delays);
    AttemptTraceQuiet(post, run.delays);
    var result :=
      match run.final
      case HttpResponse(code) => if IsSuccessStatusCode(code) then Delivered(code) else GaveUp(code)
      case HttpRequestError(m) => DeliveryFailed(m)
      case OtherException(m) => DeliveryFailed(m);
    Delivery(AttemptTrace(post, run.delays), result)
  }

  /** The payload copies the outcome's transaction id, order id, status and
      failure reason, and every POST goes to the outcome's webhook URL. */
  lemma PayloadCopiesOutcome(event: PaymentProcessed, http: nat -> HttpOutcome, now: Timestamp)
    ensures var d := SendWebhook(event, http, now);
            forall i :: 0 <= i < |d.trace| && d.trace[i].Post? ==>
              && d.trace[i].url == event.webhookUrl
              && d.trace[i].payload.transactionId == event.transactionId
              && d.trace[i].payload.orderId == event.orderId
              && d.trace[i].payload.status == event.status
              && d.trace[i].payload.failureReason == event.failureReason
  {
  }

  /** At most six POSTs per outcome, one per attempt. */
  lemma WebhookAttemptsBounded(event: PaymentProcessed, http: nat -> HttpOutcome, now: Timestamp)
    ensures multiset(SendWebhook(event, http, now).trace)[Post(event.webhookUrl, PayloadFor(event, now))]
            == WebhookRun(http).attempts <= WebhookRetryCount + 1
  {
    AttemptTraceCalls(Post(event.webhookUrl, PayloadFor(event, now)), WebhookRun(http).delays);
  }

  /** The pauses between POSTs are 2, 4, 8, 16 and 32 seconds, or a prefix
      of them, 62 seconds at most. */
  lemma WebhookBackoffBounded(http: nat -> HttpOutcome)
    ensures WebhookRun(http).delays <= [2, 4, 8, 16, 32]
    ensures Total(WebhookRun(http).delays) <= 62
  {
    var run := WebhookRun(http);
    SchedulePrefix(run.attempts - 1, 5);
    assert Schedule(5) == [2, 4, 8, 16, 32];
    RetryTotalDelayBounded(http, RetriesOn, WebhookRetryCount);
  }

  /** A delivery succeeds exactly when some attempt within the budget gets
      a success status and every attempt before it was retried. */
  lemma DeliveredIffSuccessWithinBudget(event: PaymentProcessed, http: nat -> HttpOutcome, now: Timestamp)
    ensures SendWebhook(event, http, now).result.Delivered? <==>
            exists k :: 0 <= k <= WebhookRetryCount
                        && http(k).HttpResponse? && IsSuccessStatusCode(http(k).statusCode)
                        && forall j :: 0 <= j < k ==> RetriesOn(http(j))
  {
    var run := WebhookRun(http);
    if SendWebhook(event, http, now).result.Delivered? {
      assert IsStop(http, RetriesOn, WebhookRetryCount, run.attempts - 1);
    }
    forall k | 0 <= k <= WebhookRetryCount && http(k).HttpResponse? && IsSuccessStatusCode(http(k).statusCode)
                 && (forall j :: 0 <= j < k ==> RetriesOn(http(j)))
      ensures SendWebhook(event, http, now).result.Delivered?
    {
      RetryStopsExactlyAtStop(http, RetriesOn, WebhookRetryCount, k);
    }
  }

  /** Consumer-side outcome of `Consume(TimeSpan.FromSeconds(1))`. */
  datatype OutcomePoll =
    | NoMessage                                         // the poll timed out
    | Received(offset: nat, value: Wire<PaymentProcessed>)
    | ConsumeError(fatal: bool)                         // ConsumeException
    | PollCancelled                                     // OperationCanceledException

  /** How an explicit `Commit` ends. */
  datatype CommitResult = CommitOk | CommitFailed

  /** The inputs one loop iteration meets. */
  datatype Iteration = Iteration(stopRequested: bool, poll: OutcomePoll, commit: CommitResult)

  /** `iteration` polled an outcome that deserialised. */
  predicate Decoded(it: Iteration)
  {
    it.poll.Received? && it.poll.value.Encoded?
  }

  /** One iteration of the loop in `StartKafkaConsumer`, once entered.
      Committing a consumed message stores the position after it. */
  function HandleIteration(it: Iteration): (r: Step)
    // only a fatal consume error or a cancellation ends the loop
    ensures r.next == Stop <==> it.poll == ConsumeError(true) || it.poll.PollCancelled?
    // nothing happens unless an outcome deserialised
    ensures !Decoded(it) ==> r.trace == []
    // otherwise the delivery is launched first, then the position moves past the message
    ensures Decoded(it) ==>
              && |r.trace| >= 1
              && r.trace[0] == LaunchDelivery(it.poll.value.event)
              && (it.commit.CommitOk? <==> Commit(it.poll.offset + 1) in r.trace)
              && forall i :: 1 <= i < |r.trace| ==> r.trace[i] == Commit(it.poll.offset + 1)
  {
    match it.poll
    case NoMessage => Step([], Continue)
    case ConsumeError(fatal) => Step([], if fatal then Stop else Continue)
    case PollCancelled => Step([], Stop)
    case Received(_, Malformed(_)) => Step([], Continue)
    case Received(offset, Encoded(event)) =>
      var launch := [LaunchDelivery(event)];
      if it.commit.CommitOk? then Step(launch + [Commit(offset + 1)], Continue)
      else Step(launch, Continue)
  }

  /** One iteration together with the delivery it launched, if any. */
  datatype Dispatched = Dispatched(step: Step, delivery: Option<Delivery>)

  function Dispatch(it: Iteration, http: nat -> HttpOutcome, now: Timestamp): (r: Dispatched)
    // a delivery runs exactly when the step launched one
    ensures r.delivery.Some? <==> |r.step.trace| > 0
    ensures r.delivery.Some? <==> Decoded(it)
    // and it delivers the launched outcome: every POST goes to that
    // outcome's URL with the body built from it
    ensures r.delivery.Some? ==>
              && r.step.trace[0].LaunchDelivery?
              && forall i :: 0 <= i < |r.delivery.value.trace| && r.delivery.value.trace[i].Post? ==>
                   r.delivery.value.trace[i] ==
                     Post(r.step.trace[0].event.webhookUrl, PayloadFor(r.step.trace[0].event, now))
  {
    Dispatched(HandleIteration(it),
               if Decoded(it) then Some(SendWebhook(it.poll.value.event, http, now)) else None)
  }

  /** The commit does not wait for the delivery: the loop's effects are the
      same whatever the webhook endpoint answers, and the position moves
      past a deserialised outcome even when its delivery is given up or
      fails. */
  lemma CommitIgnoresDelivery(it: Iteration, h1: nat -> HttpOutcome, h2: nat -> HttpOutcome,
                              n1: Timestamp, n2: Timestamp, initial: nat)
    ensures Dispatch(it, h1, n1).step == Dispatch(it, h2, n2).step
    ensures Decoded(it) && it.commit.CommitOk? ==>
              CommittedPosition(initial, Dispatch(it, h1, n1).step.trace) == it.poll.offset + 1
  {
  }

  /** Effect `i` of `t` is its last commit. */
  predicate IsLastCommit(t: seq<Effect>, i: int)
  {
    && 0 <= i < |t|
    && t[i].Commit?
    && forall j :: i < j < |t| ==> !t[j].Commit?
  }

  /** The dispatcher's consumer runs with `EnableAutoCommit = false`, so its
      position moves only through explicit commits: it is the one stored by
      the last commit in `t`, or `initial` if there was none. */
  function CommittedPosition(initial: nat, t: seq<Effect>): (p: nat)
    ensures (forall i :: 0 <= i < |t| ==> !t[i].Commit?) ==> p == initial
    ensures (exists i :: 0 <= i < |t| && t[i].Commit?) ==>
              exists i :: IsLastCommit(t, i) && p == t[i].position
  {
    if |t| == 0 then initial
    else if t[|t| - 1].Commit? then
      assert IsLastCommit(t, |t| - 1);
      t[|t| - 1].position
    else
      LastCommitOfPrefix(t, t[..|t| - 1]);
      CommittedPosition(initial, t[..|t| - 1])
  }

  /** Dropping a last effect that is not a commit keeps the last commit. */
  lemma LastCommitOfPrefix(t: seq<Effect>, s: seq<Effect>)
    requires |t| > 0 && !t[|t| - 1].Commit? && s == t[..|t| - 1]
    ensures (exists i :: 0 <= i < |t| && t[i].Commit?) ==> exists i :: 0 <= i < |s| && s[i].Commit?
    ensures forall i :: IsLastCommit(s, i) ==> IsLastCommit(t, i)
  {
    forall i | 0 <= i < |t| && t[i].Commit? ensures 0 <= i < |s| && s[i].Commit? {
    }
  }

  /** The position after two stretches of effects is the position the second
      stretch reaches from where the first one left it. */
  lemma {:induction false} CommittedPositionAppend(initial: nat, a: seq<Effect>, b: seq<Effect>)
    ensures CommittedPosition(initial, a + b) == CommittedPosition(CommittedPosition(initial, a), b)
    decreases |b|
  {
    if |b| == 0 {
      assert a + b == a;
    } else if !b[|b| - 1].Commit? {
      assert (a + b)[..|a + b| - 1] == a + b[..|b| - 1];
      CommittedPositionAppend(initial, a, b[..|b| - 1]);
    }
  }

  /** The loop over a series of iterations, up to the first that finds the
      stop signal or stops the loop. */
  function Run(its: seq<Iteration>): (t: seq<Effect>)
    decreases |its|
  {
    if |its| == 0 || its[0].stopRequested then []
    else
      var step := HandleIteration(its[0]);
      if step.next == Stop then step.trace else step.trace + Run(its[1..])
  }

  /** Every commit comes right after the launch of a delivery. */
  predicate CommitFollowsLaunch(t: seq<Effect>)
  {
    forall i :: 0 <= i < |t| ==> LaunchBefore(t, i)
  }

  predicate LaunchBefore(t: seq<Effect>, i: nat)
    requires i < |t|
  {
    t[i].Commit? ==> 0 < i && t[i - 1].LaunchDelivery?
  }

  lemma CommitFollowsLaunchAppend(a: seq<Effect>, b: seq<Effect>)
    requires CommitFollowsLaunch(a) && CommitFollowsLaunch(b)
    ensures CommitFollowsLaunch(a + b)
  {
    var t := a + b;
    forall i | 0 <= i < |t| ensures LaunchBefore(t, i) {
      if i < |a| {
        assert LaunchBefore(a, i);
        if i > 0 { assert t[i - 1] == a[i - 1]; }
      } else {
        assert LaunchBefore(b, i - |a|);
        if i - |a| > 0 { assert t[i - 1] == b[i - 1 - |a|]; }
      }
    }
  }

  /** Over any run of the loop, the position is never committed except right
      after a delivery was launched. */
  lemma {:induction false} RunCommitFollowsLaunch(its: seq<Iteration>)
    ensures CommitFollowsLaunch(Run(its))
    decreases |its|
  {
    if |its| > 0 && !its[0].stopRequested {
      var step := HandleIteration(its[0]);
      assert CommitFollowsLaunch(step.trace) by {
        forall i | 0 <= i < |step.trace| ensures LaunchBefore(step.trace, i) {
          if i > 0 { assert step.trace[0].LaunchDelivery?; assert i == 1; }
        }
      }
      if step.next == Continue {
        RunCommitFollowsLaunch(its[1..]);
        CommitFollowsLaunchAppend(step.trace, Run(its[1..]));
      }
    }
  }

  /** Iterations that poll nothing, meet a non-fatal error or a message that
      does not deserialise leave no effect and do not move the position. */
  lemma {:induction false} IdleRunKeepsPosition(its: seq<Iteration>, initial: nat)
    requires forall i :: 0 <= i < |its| ==> !Decoded(its[i])
    ensures Run(its) == []
    ensures CommittedPosition(initial, Run(its)) == initial
    decreases |its|
  {
    if |its| > 0 && !its[0].stopRequested {
      if HandleIteration(its[0]).next == Continue {
        IdleRunKeepsPosition(its[1..], initial);
      }
    }
  }

  /** Five failure statuses and then a success: six POSTs, delivered, while
      the position was committed past the outcome in the same iteration that
      launched the delivery. */
  lemma FailFiveTimesThenDeliver(event: PaymentProcessed, offset: nat, now: Timestamp)
    ensures var http := (n: nat) => if n < 5 then HttpResponse(500) else HttpResponse(200);
            var it := Iteration(false, Received(offset, Encoded(event)), CommitOk);
            var d := Dispatch(it, http, now);
            && d.delivery.value.result == Delivered(200)
            && WebhookRun(http).attempts == 6
            && WebhookRun(http).delays == [2, 4, 8, 16, 32]
            && d.step.trace == [LaunchDelivery(event), Commit(offset + 1)]
  {
    var http := (n: nat) => if n < 5 then HttpResponse(500) else HttpResponse(200);
    RetryStopsExactlyAtStop(http, RetriesOn, WebhookRetryCount, 5);
    assert Schedule(5) == [2, 4, 8, 16, 32];
  }
}
