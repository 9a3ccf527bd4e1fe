/** The authorization worker of the PaymentProcessor service. One
    sequential loop consumes `payment-requests`; for each request it calls
    the bank under a retry policy (one attempt plus 3 retries, pausing 2^n
    seconds before retry n, retrying on any exception), writes a
    `TransactionLog` document and then publishes a `PaymentProcessed` event
    to `payment-outcomes`. Any exception inside an iteration -- a request
    that does not deserialise, an exhausted retry, a failed insert or
    produce -- is logged and the loop moves on; a cancellation ends it.

    The bank's random draws, the store's and the broker's answers, and the
    clock are inputs. */
module Processor {
  import opened Contracts
  import opened Effects
  import opened Retry

  /** Retries after the first bank call. */
  const BankRetryCount: nat := 3

  const BankUnavailableMessage: string := "Bankovni API nije dostupan."
  const AuthorisedNote: string := "Plaćanje uspješno autorizirano."

  /** How one bank call ends: it returns a (success, reason) pair or throws. */
  datatype BankOutcome = Returned(success: bool, reason: string) | Threw(message: string)

  /** The policy handles every exception. */
  predicate RetriesOn(o: BankOutcome)
  {
    o.Threw?
  }

  /** A value of `Random.Next(1, 4)`. */
  type Draw = d: int | 1 <= d < 4 witness 1

  /** The simulated bank: the call fails on a draw of 1 (one draw in three)
      and otherwise authorises. There is no decline path. */
  function ProcessPaymentWithBank(draw: Draw): (o: BankOutcome)
    ensures o.Threw? <==> draw == 1
    ensures o.Returned? ==> o.success
  {
    if draw == 1 then Threw(BankUnavailableMessage) else Returned(true, AuthorisedNote)
  }

  function StatusText(success: bool): string
  {
    if success then SuccessStatus else FailureStatus
  }

  /** The document `LogTransaction` inserts; the store assigns its id. */
  function TransactionLogFor(request: PaymentRequestReceived, success: bool, reason: string, now: Timestamp): TransactionLog
  {
    TransactionLog(None, request.transactionId, request.orderId, StatusText(success), reason, now, request)
  }

  /** The outcome event published after the document is stored. */
  function OutcomeFor(request: PaymentRequestReceived, success: bool, reason: string): PaymentProcessed
  {
    PaymentProcessed(request.transactionId, request.orderId, StatusText(success), reason, request.webhookUrl)
  }

  /** `log` is the audit document of `request`, not yet given an id. */
  predicate RecordOf(log: TransactionLog, request: PaymentRequestReceived)
  {
    && log.id.None?
    && log.transactionId == request.transactionId
    && log.orderId == request.orderId
    && log.requestData == request
  }

  /** `event` reports what `log` records about the same transaction. */
  predicate OutcomeMatches(event: PaymentProcessed, log: TransactionLog)
  {
    && event.transactionId == log.transactionId
    && event.orderId == log.orderId
    && event.status == log.status
    && event.failureReason == log.reason
    && event.webhookUrl == log.requestData.webhookUrl
  }

  /** If effect i is a publish, it is an outcome on `payment-outcomes`
      and comes right after the insert of a document it agrees with. */
  predicate PublishFollowsInsert(t: seq<Effect>, i: nat)
    requires i < |t|
  {
    t[i].Publish? ==>
      && 0 < i
      && t[i].topic == PaymentOutcomesTopic
      && t[i].message.OutcomeEvent?
      && t[i - 1].Insert?
      && OutcomeMatches(t[i].message.outcome, t[i - 1].log)
  }

  /** Every published outcome comes right after the insert of a document it
      agrees with. */
  predicate InsertPrecedesPublish(t: seq<Effect>)
  {
    forall i :: 0 <= i < |t| ==> PublishFollowsInsert(t, i)
  }

  lemma InsertPrecedesPublishAppend(a: seq<Effect>, b: seq<Effect>)
    requires InsertPrecedesPublish(a) && InsertPrecedesPublish(b)
    ensures InsertPrecedesPublish(a + b)
  {
    var t := a + b;
    forall i | 0 <= i < |t|
      ensures PublishFollowsInsert(t, i)
    {
      if i < |a| {
        assert PublishFollowsInsert(a, i);
        if i > 0 { assert t[i - 1] == a[i - 1]; }
      } else {
        assert PublishFollowsInsert(b, i - |a|);
        if i - |a| > 0 { assert t[i - 1] == b[i - 1 - |a|]; }
      }
    }
  }

  /** A trace without durable effects trivially publishes nothing. */
  lemma NoDurableInsertPrecedesPublish(t: seq<Effect>)
    requires NoDurable(t)
    ensures InsertPrecedesPublish(t)
  {
    forall i | 0 <= i < |t| ensures PublishFollowsInsert(t, i) {
      assert !Durable(t[i]);
    }
  }

  /** The run of the bank call under the worker's retry policy. */
  function BankRun(bank: nat -> BankOutcome): RetryRun<BankOutcome>
  {
    RetryWithBackoff(bank, RetriesOn, BankRetryCount)
  }

  /** What an outcome store and broker do with one request. */
  datatype StoreResult = Stored | StoreFailed

  /** What follows the retried bank call: the insert of the document and
      then the publish of the outcome, each only if what came before it
      succeeded. */
  function Settle(request: PaymentRequestReceived, final: BankOutcome,
                  insert: StoreResult, produce: ProduceResult, now: Timestamp): (r: Step)
    ensures RetriesOn(final) || insert.StoreFailed? ==> r == Step([], Continue)
    ensures !RetriesOn(final) && insert.Stored? ==>
              && |r.trace| == (if produce.Acked? then 2 else 1)
              && r.trace[0].Insert?
              && RecordOf(r.trace[0].log, request)
              && (r.trace[0].log.status == SuccessStatus <==> final.success)
              && r.trace[0].log.reason == final.reason
              && (|r.trace| == 2 ==> r.trace[1].Publish?)
    ensures InsertPrecedesPublish(r.trace)
    ensures r.next == Stop <==> !RetriesOn(final) && insert.Stored? && produce.ProduceCancelled?
  {
    match final
    case Threw(_) => Step([], Continue)
    case Returned(success, reason) =>
      if insert.StoreFailed? then Step([], Continue)
      else
        var stored := [Insert(TransactionLogFor(request, success, reason, now))];
        match produce
        case Acked =>
          Step(stored + [Publish(PaymentOutcomesTopic, OutcomeEvent(OutcomeFor(request, success, reason)))], Continue)
        case ProduceFailed => Step(stored, Continue)
        case ProduceCancelled => Step(stored, Stop)
  }

  /** The body of the loop for one deserialised request: the retried bank
      call, then the insert, then the publish. `bank(n)` is how bank call n
      ends. */
  function ProcessRequest(request: PaymentRequestReceived, bank: nat -> BankOutcome,
                          insert: StoreResult, produce: ProduceResult, now: Timestamp): (r: Step)
    // exhausted retries or a failed insert: nothing durable, the loop goes on
    ensures RetriesOn(BankRun(bank).final) || insert.StoreFailed? ==>
              NoDurable(r.trace) && r.next == Continue
    // an outcome is published only right after a document it agrees with
    ensures InsertPrecedesPublish(r.trace)
    // only a cancelled produce stops the loop
    ensures r.next == Stop <==> !RetriesOn(BankRun(bank).final) && insert.Stored? && produce.ProduceCancelled?
  {
    var run := BankRun(bank);
    var calls := AttemptTrace(CallBank(request.transactionId), run.delays);
    var rest := Settle(request, run.final, insert, produce, now);
    AttemptTraceQuiet(CallBank(request.transactionId), run.delays);
    NoDurableInsertPrecedesPublish(calls);
    InsertPrecedesPublishAppend(calls, rest.trace);
    Step(calls + rest.trace, rest.next)
  }

  /** The durable part of handling a request, after the bank calls: the
      request's own document, stored exactly when the bank call returned and
      the insert worked, marked "Success" exactly when the bank reported
      success; then one outcome agreeing with it, published exactly when the
      broker acknowledged; nothing else. */
  lemma DurableEffectsOfRequest(request: PaymentRequestReceived, bank: nat -> BankOutcome,
                                insert: StoreResult, produce: ProduceResult, now: Timestamp)
    ensures var t := ProcessRequest(request, bank, insert, produce, now).trace;
            var k := |AttemptTrace(CallBank(request.transactionId), BankRun(bank).delays)|;
            var final := BankRun(bank).final;
            var stored := !RetriesOn(final) && insert.Stored?;
            && |t| == k + (if stored then 1 else 0) + (if stored && produce.Acked? then 1 else 0)
            && (k < |t| ==>
                  && t[k].Insert?
                  && RecordOf(t[k].log, request)
                  && (t[k].log.status == SuccessStatus <==> final.success)
                  && t[k].log.reason == final.reason)
            && (k + 1 < |t| ==>
                  && t[k + 1] == Publish(PaymentOutcomesTopic, t[k + 1].message)
                  && OutcomeMatches(t[k + 1].message.outcome, t[k].log))
  {
    var run := BankRun(bank);
    var calls := AttemptTrace(CallBank(request.transactionId), run.delays);
    var rest := Settle(request, run.final, insert, produce, now);
    var t := ProcessRequest(request, bank, insert, produce, now).trace;
    assert t == calls + rest.trace;
    if |rest.trace| == 2 {
      assert PublishFollowsInsert(rest.trace, 1);
    }
  }

  /** Exactly one outcome is published for a request whose bank call
      returned, whose document was stored and whose publish the broker
      acknowledged; none otherwise. */
  lemma OneOutcomePerStoredRequest(request: PaymentRequestReceived, bank: nat -> BankOutcome,
                                   insert: StoreResult, produce: ProduceResult, now: Timestamp)
    ensures var t := ProcessRequest(request, bank, insert, produce, now).trace;
            var stored := !RetriesOn(BankRun(bank).final) && insert.Stored?;
            |Published(t, PaymentOutcomesTopic)| == (if stored && produce.Acked? then 1 else 0)
  {
    var run := BankRun(bank);
    var calls := AttemptTrace(CallBank(request.transactionId), run.delays);
    var rest := Settle(request, run.final, insert, produce, now);
    var t := ProcessRequest(request, bank, insert, produce, now).trace;
    assert t == calls + rest.trace;
    AttemptTraceQuiet(CallBank(request.transactionId), run.delays);
    NoDurablePublishesNothing(calls, PaymentOutcomesTopic);
    PublishedAppend(calls, rest.trace, PaymentOutcomesTopic);
    if |rest.trace| == 2 {
      assert PublishFollowsInsert(rest.trace, 1);
      assert Published(rest.trace, PaymentOutcomesTopic) == [rest.trace[1].message];
    } else if |rest.trace| == 1 {
      assert Published(rest.trace, PaymentOutcomesTopic) == [];
    }
  }

  /** The bank is called once per attempt of the policy, so at most four
      times per request. */
  lemma BankCallsBounded(request: PaymentRequestReceived, bank: nat -> BankOutcome,
                         insert: StoreResult, produce: ProduceResult, now: Timestamp)
    ensures var t := ProcessRequest(request, bank, insert, produce, now).trace;
            multiset(t)[CallBank(request.transactionId)] == BankRun(bank).attempts <= BankRetryCount + 1
  {
    var run := BankRun(bank);
    var call := CallBank(request.transactionId);
    var calls := AttemptTrace(call, run.delays);
    var rest := Settle(request, run.final, insert, produce, now);
    var t := ProcessRequest(request, bank, insert, produce, now).trace;
    assert t == calls + rest.trace;
    AttemptTraceCalls(call, run.delays);
    SettleMakesNoCall(request, run.final, insert, produce, now, call);
  }

  lemma SettleMakesNoCall(request: PaymentRequestReceived, final: BankOutcome,
                          insert: StoreResult, produce: ProduceResult, now: Timestamp, call: Effect)
    requires call.CallBank?
    ensures multiset(Settle(request, final, insert, produce, now).trace)[call] == 0
  {
  }

  /** The pauses between bank calls are 2, 4 and 8 seconds, or a prefix of
      them, so at most 14 seconds are spent waiting per request. */
  lemma BankBackoffBounded(bank: nat -> BankOutcome)
    ensures BankRun(bank).delays <= [2, 4, 8]
    ensures Total(BankRun(bank).delays) <= 14
  {
    var run := BankRun(bank);
    SchedulePrefix(run.attempts - 1, 3);
    assert Schedule(3) == [2, 4, 8];
    RetryTotalDelayBounded(bank, RetriesOn, BankRetryCount);
  }

  /** A bank that throws on every call is called four times, with pauses of
      2, 4 and 8 seconds; the request is then dropped: no document, no
      outcome, and the loop goes on. */
  lemma BankDownDropsRequest(request: PaymentRequestReceived, bank: nat -> BankOutcome,
                             insert: StoreResult, produce: ProduceResult, now: Timestamp)
    requires forall j :: 0 <= j <= BankRetryCount ==> bank(j).Threw?
    ensures BankRun(bank).attempts == 4
    ensures BankRun(bank).delays == [2, 4, 8]
    ensures var r := ProcessRequest(request, bank, insert, produce, now);
            NoDurable(r.trace) && r.next == Continue
  {
    AlwaysFailingExhausts(bank, RetriesOn, BankRetryCount);
    assert Schedule(3) == [2, 4, 8];
  }

  /** Two throws and then a return: three bank calls with pauses of 2 and 4
      seconds, then the success is stored and published. */
  lemma FailTwiceThenAuthorise(request: PaymentRequestReceived, now: Timestamp)
    ensures var bank := (n: nat) => if n < 2 then Threw(BankUnavailableMessage) else Returned(true, AuthorisedNote);
            var r := ProcessRequest(request, bank, Stored, Acked, now);
            && BankRun(bank).attempts == 3
            && BankRun(bank).delays == [2, 4]
            && Insert(TransactionLogFor(request, true, AuthorisedNote, now)) in r.trace
            && Publish(PaymentOutcomesTopic, OutcomeEvent(OutcomeFor(request, true, AuthorisedNote))) in r.trace
            && r.next == Continue
  {
    var bank := (n: nat) => if n < 2 then Threw(BankUnavailableMessage) else Returned(true, AuthorisedNote);
    RetryStopsExactlyAtStop(bank, RetriesOn, BankRetryCount, 2);
    assert Schedule(2) == [2, 4];
    DurableEffectsOfRequest(request, bank, Stored, Acked, now);
  }

  /** Consumer-side outcome of `Consume(stoppingToken)`. */
  datatype RequestPoll =
    | Consumed(value: Wire<PaymentRequestReceived>)
    | ConsumeCancelled                 // OperationCanceledException
    | ConsumeFailed                    // any other exception

  /** The inputs one loop iteration meets. */
  datatype Iteration = Iteration(
    stopRequested: bool,               // stoppingToken checked at the loop head
    poll: RequestPoll,
    draws: nat -> Draw,                // the bank's draw on each attempt
    insert: StoreResult,
    produce: ProduceResult,
    now: Timestamp)

  /** The bank behaviour a series of draws produces. */
  function BankFromDraws(draws: nat -> Draw): nat -> BankOutcome
  {
    (n: nat) => ProcessPaymentWithBank(draws(n))
  }

  /** One iteration of the loop in `ExecuteAsync`, once it has been entered. */
  function HandleIteration(it: Iteration): (r: Step)
    ensures !(it.poll.Consumed? && it.poll.value.Encoded?) ==> r.trace == []
    ensures r.next == Stop <==>
              it.poll.ConsumeCancelled? || (it.poll.Consumed? && it.poll.value.Encoded?
                && !RetriesOn(BankRun(BankFromDraws(it.draws)).final)
                && it.insert.Stored? && it.produce.ProduceCancelled?)
  {
    match it.poll
    case ConsumeCancelled => Step([], Stop)
    case ConsumeFailed => Step([], Continue)
    case Consumed(Malformed(_)) => Step([], Continue)
    case Consumed(Encoded(request)) =>
      ProcessRequest(request, BankFromDraws(it.draws), it.insert, it.produce, it.now)
  }

  /** The loop over a series of iterations, up to the first that finds the
      stop signal or stops the loop. */
  function Run(its: seq<Iteration>): (t: seq<Effect>)
    decreases |its|
  {
    if |its| == 0 || its[0].stopRequested then []
    else
      var step := HandleIteration(its[0]);
      if step.next == Stop then step.trace else step.trace + Run(its[1..])
  }

  /** Over any run of the loop, each published outcome follows the insert of
      a matching document. */
  lemma {:induction false} RunInsertPrecedesPublish(its: seq<Iteration>)
    ensures InsertPrecedesPublish(Run(its))
    decreases |its|
  {
    if |its| > 0 && !its[0].stopRequested {
      var step := HandleIteration(its[0]);
      if step.next == Continue {
        RunInsertPrecedesPublish(its[1..]);
        InsertPrecedesPublishAppend(step.trace, Run(its[1..]));
      }
    }
  }

  /** A document or outcome effect that reports success; any other effect. */
  predicate ReportsSuccess(e: Effect)
  {
    && (e.Insert? ==> e.log.status == SuccessStatus)
    && (e.Publish? && e.message.OutcomeEvent? ==> e.message.outcome.status == SuccessStatus)
  }

  /** Every stored document and published outcome reports success. */
  predicate OnlySuccess(t: seq<Effect>)
  {
    forall i :: 0 <= i < |t| ==> ReportsSuccess(t[i])
  }

  lemma OnlySuccessAppend(a: seq<Effect>, b: seq<Effect>)
    requires OnlySuccess(a) && OnlySuccess(b)
    ensures OnlySuccess(a + b)
  {
    forall i | 0 <= i < |a + b| ensures ReportsSuccess((a + b)[i]) {
      if i < |a| { assert (a + b)[i] == a[i]; } else { assert (a + b)[i] == b[i - |a|]; }
    }
  }

  lemma NoDurableOnlySuccess(t: seq<Effect>)
    requires NoDurable(t)
    ensures OnlySuccess(t)
  {
    forall i | 0 <= i < |t| ensures ReportsSuccess(t[i]) {
      assert !Durable(t[i]);
    }
  }

  /** A bank that never declines leads to documents and outcomes that
      report success. */
  lemma SettleOnlySuccess(request: PaymentRequestReceived, final: BankOutcome,
                          insert: StoreResult, produce: ProduceResult, now: Timestamp)
    requires final.Returned? ==> final.success
    ensures OnlySuccess(Settle(request, final, insert, produce, now).trace)
  {
    var t := Settle(request, final, insert, produce, now).trace;
    if |t| == 2 {
      assert PublishFollowsInsert(t, 1);
    }
  }

  /** The simulated bank never declines, so handling one request never
      writes or publishes "Failure". */
  lemma RequestOnlySuccess(request: PaymentRequestReceived, draws: nat -> Draw,
                           insert: StoreResult, produce: ProduceResult, now: Timestamp)
    ensures OnlySuccess(ProcessRequest(request, BankFromDraws(draws), insert, produce, now).trace)
  {
    var bank := BankFromDraws(draws);
    var run := BankRun(bank);
    var calls := AttemptTrace(CallBank(request.transactionId), run.delays);
    assert run.final == ProcessPaymentWithBank(draws(run.attempts - 1));
    SettleOnlySuccess(request, run.final, insert, produce, now);
    AttemptTraceQuiet(CallBank(request.transactionId), run.delays);
    NoDurableOnlySuccess(calls);
    OnlySuccessAppend(calls, Settle(request, run.final, insert, produce, now).trace);
  }

  /** Since the simulated bank never declines, "Failure" is never written or
      published by any run of the loop. */
  lemma {:induction false} FailureUnreachable(its: seq<Iteration>)
    ensures OnlySuccess(Run(its))
    decreases |its|
  {
    if |its| > 0 && !its[0].stopRequested {
      var it := its[0];
      var step := HandleIteration(it);
      if it.poll.Consumed? && it.poll.value.Encoded? {
        RequestOnlySuccess(it.poll.value.event, it.draws, it.insert, it.produce, it.now);
      }
      if step.next == Continue {
        FailureUnreachable(its[1..]);
        OnlySuccessAppend(step.trace, Run(its[1..]));
      }
    }
  }
}
