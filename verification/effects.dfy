/** The externally visible effects of the three services, in the order they
    happen. Each service's handling of one request or message is a pure
    function from its inputs (including the outcomes of the calls it makes)
    to a trace of these effects. */
module Effects {
  import opened Contracts

  /** The value of a message handed to the Kafka producer. */
  datatype Message = RequestEvent(request: PaymentRequestReceived) | OutcomeEvent(outcome: PaymentProcessed)

  datatype Effect =
    | LookupKey(key: string)                         // Redis StringGet
    | Publish(topic: string, message: Message)       // acknowledged Kafka produce
    | CallBank(transactionId: Guid)                  // one run of the bank call
    | Wait(seconds: nat)                             // a retry policy's pause
    | Insert(log: TransactionLog)                    // MongoDB InsertOne that succeeded
    | LaunchDelivery(event: PaymentProcessed)        // SendWebhook started, not awaited
    | Commit(position: nat)                          // explicit offset commit
    | Post(url: string, payload: WebhookPayload)     // one HTTP POST of a webhook

  /** Effects that change durable state another party can observe later:
      a topic, the transaction store, or a consumer group's position. */
  predicate Durable(e: Effect)
  {
    e.Publish? || e.Insert? || e.Commit?
  }

  predicate NoDurable(t: seq<Effect>)
  {
    forall i :: 0 <= i < |t| ==> !Durable(t[i])
  }

  /** The messages published to `topic`, in trace order. */
  function Published(t: seq<Effect>, topic: string): (ms: seq<Message>)
    ensures |ms| <= |t|
    ensures forall m :: m in ms <==> Publish(topic, m) in t
  {
    if |t| == 0 then []
    else
      var rest := Published(t[1..], topic);
      if t[0].Publish? && t[0].topic == topic then [t[0].message] + rest else rest
  }

  lemma {:induction false} PublishedAppend(a: seq<Effect>, b: seq<Effect>, topic: string)
    ensures Published(a + b, topic) == Published(a, topic) + Published(b, topic)
  {
    if |a| > 0 {
      assert (a + b)[1..] == a[1..] + b;
      PublishedAppend(a[1..], b, topic);
    } else {
      assert a + b == b;
    }
  }

  lemma {:induction false} NoDurablePublishesNothing(t: seq<Effect>, topic: string)
    requires NoDurable(t)
    ensures Published(t, topic) == []
  {
    if |t| > 0 {
      assert !Durable(t[0]);
      NoDurablePublishesNothing(t[1..], topic);
    }
  }

  /** The effects of running a call under a retry policy that paused
      `delays` between runs: the call, then for each pause the pause and the
      call again. */
  function AttemptTrace(call: Effect, delays: seq<nat>): (t: seq<Effect>)
    ensures |t| == 2 * |delays| + 1
    ensures t[0] == call && t[|t| - 1] == call
  {
    if |delays| == 0 then [call]
    else AttemptTrace(call, delays[..|delays| - 1]) + [Wait(delays[|delays| - 1]), call]
  }

  predicate IsCallOrWait(e: Effect, call: Effect)
  {
    e == call || e.Wait?
  }

  /** An attempt trace holds nothing but the call and pauses. */
  lemma {:induction false} AttemptTraceOnlyCallsAndWaits(call: Effect, delays: seq<nat>)
    ensures forall i :: 0 <= i < |AttemptTrace(call, delays)| ==> IsCallOrWait(AttemptTrace(call, delays)[i], call)
  {
    if |delays| > 0 {
      AttemptTraceOnlyCallsAndWaits(call, delays[..|delays| - 1]);
      var t := AttemptTrace(call, delays);
      var p := AttemptTrace(call, delays[..|delays| - 1]);
      assert t == p + [Wait(delays[|delays| - 1]), call];
      forall i | 0 <= i < |t| ensures IsCallOrWait(t[i], call) {
        if i < |p| { assert t[i] == p[i] && IsCallOrWait(p[i], call); }
        else if i == |p| { assert t[i] == Wait(delays[|delays| - 1]); }
        else { assert t[i] == call; }
      }
    }
  }

  /** Running a call that changes nothing durable changes nothing durable,
      however often it is retried. */
  lemma AttemptTraceQuiet(call: Effect, delays: seq<nat>)
    requires !Durable(call)
    ensures NoDurable(AttemptTrace(call, delays))
  {
    AttemptTraceOnlyCallsAndWaits(call, delays);
    var t := AttemptTrace(call, delays);
    forall i | 0 <= i < |t| ensures !Durable(t[i]) {
      assert IsCallOrWait(t[i], call);
    }
  }

  /** Of all effects in an attempt trace, the call occurs exactly once per
      attempt: one more time than there were pauses. */
  lemma {:induction false} AttemptTraceCalls(call: Effect, delays: seq<nat>)
    requires !call.Wait?
    ensures multiset(AttemptTrace(call, delays))[call] == |delays| + 1
  {
    if |delays| > 0 {
      AttemptTraceCalls(call, delays[..|delays| - 1]);
    }
  }

  /** What a loop does after handling one message. */
  datatype Next = Continue | Stop

  /** The handling of one loop iteration. */
  datatype Step = Step(trace: seq<Effect>, next: Next)
}
