/** The ingress gateway: `POST /api/payments` of the PaymentAPI service.
    The caller's API key (header `X-API-Key`) is checked in two stages,
    first for presence and then against the Redis credential store; an
    authenticated request is turned into a `PaymentRequestReceived` event
    with a freshly minted transaction id, published once to
    `payment-requests`, and answered with 202 Accepted / "Pending" without
    waiting for any downstream processing.

    The Redis store is a map from keys to values, the minted GUID and the
    outcome of the produce call are parameters. */
module Gateway {
  import opened Contracts
  import opened Effects

  const MissingKeyMessage: string := "API Key is missing."
  const InvalidKeyMessage: string := "Invalid API Key."
  const KeyPrefix: string := "apikeys:"

  /** The action's result. A store read or a produce call that throws
      escapes the action, which the web host answers with an internal server
      error. */
  datatype Response =
    | Unauthorized(message: string)
    | Accepted(transactionId: Guid, status: string)
    | ServerError

  /** The HTTP status of a response: 401 Unauthorized (section 15.5.2 of
      RFC 9110), 202 Accepted (section 15.3.3) or 500. */
  function StatusCode(resp: Response): (code: nat)
    ensures code == 401 <==> resp.Unauthorized?
    ensures code == 202 <==> resp.Accepted?
    ensures 400 <= code < 600 <==> !resp.Accepted?
  {
    match resp
    case Unauthorized(_) => 401
    case Accepted(_, _) => 202
    case ServerError => 500
  }

  /** `string.IsNullOrEmpty`; `None` is a null reference. */
  predicate IsNullOrEmpty(s: Option<string>)
  {
    s.None? || s.value == ""
  }

  /** The Redis key under which a caller's name is stored. */
  function ApiKeyLookupKey(apiKey: string): (k: string)
    ensures |k| == |KeyPrefix| + |apiKey|
    ensures k[..|KeyPrefix|] == KeyPrefix && k[|KeyPrefix|..] == apiKey
  {
    KeyPrefix + apiKey
  }

  /** Distinct API keys are looked up under distinct Redis keys. */
  lemma LookupKeyInjective(a: string, b: string)
    requires ApiKeyLookupKey(a) == ApiKeyLookupKey(b)
    ensures a == b
  {
    assert a == ApiKeyLookupKey(a)[|KeyPrefix|..];
  }

  /** `StringGet` on the store: a missing key reads as null. */
  function StringGet(store: map<string, string>, key: string): (v: Option<string>)
    ensures v.Some? <==> key in store
    ensures v.Some? ==> v.value == store[key]
  {
    if key in store then Some(store[key]) else None
  }

  /** How the `StringGet` round trip to Redis ends: it answers, or it
      throws (connection loss, timeout, a key of the wrong type). */
  datatype ReadResult = ReadOk | ReadFailed

  /** A present key is valid when the store binds it to a non-empty caller name. */
  predicate KeyIsValid(store: map<string, string>, apiKey: string)
  {
    !IsNullOrEmpty(StringGet(store, ApiKeyLookupKey(apiKey)))
  }

  /** What one call of the action responds and does. */
  datatype Handled = Handled(response: Response, trace: seq<Effect>)

  /** The event built for an authenticated request. */
  function EventFor(transactionId: Guid, dto: CreatePaymentRequestDto, apiKey: string): PaymentRequestReceived
  {
    PaymentRequestReceived(transactionId, dto.orderId, dto.amount, dto.currency,
                           dto.cardNumber, dto.webhookUrl, apiKey)
  }

  /** `PaymentsController.CreatePayment`. `read` is how the store lookup
      ends; `produce` how the publish ends. */
  function CreatePayment(apiKey: Option<string>, dto: CreatePaymentRequestDto,
                         store: map<string, string>, read: ReadResult, freshId: Guid,
                         produce: ProduceResult): (r: Handled)
    // a missing key is rejected before the store is consulted
    ensures IsNullOrEmpty(apiKey) ==> r == Handled(Unauthorized(MissingKeyMessage), [])
    // otherwise the first effect is the lookup of exactly "apikeys:" + key
    ensures !IsNullOrEmpty(apiKey) ==>
              |r.trace| >= 1 && r.trace[0] == LookupKey(KeyPrefix + apiKey.value)
    // a lookup that throws ends the call with a server error after the lookup alone
    ensures !IsNullOrEmpty(apiKey) && read.ReadFailed? ==>
              r == Handled(ServerError, [LookupKey(KeyPrefix + apiKey.value)])
    ensures !IsNullOrEmpty(apiKey) && read.ReadOk? && !KeyIsValid(store, apiKey.value) ==>
              r == Handled(Unauthorized(InvalidKeyMessage), [LookupKey(KeyPrefix + apiKey.value)])
    // a publish that is not acknowledged ends the call with a server error, nothing published
    ensures !IsNullOrEmpty(apiKey) && read.ReadOk? && KeyIsValid(store, apiKey.value) && !produce.Acked? ==>
              r == Handled(ServerError, [LookupKey(KeyPrefix + apiKey.value)])
    // a rejected or failed call changes nothing durable
    ensures !r.response.Accepted? ==> NoDurable(r.trace)
    // accepted exactly when the key is present and valid and the broker acknowledged
    ensures r.response.Accepted? <==>
              !IsNullOrEmpty(apiKey) && read.ReadOk? && KeyIsValid(store, apiKey.value) && produce.Acked?
    // an accepted call published exactly one event, last, with the response's id
    ensures r.response.Accepted? ==>
              && r.response.status == PendingStatus
              && r.response.transactionId == freshId
              && |r.trace| == 2
              && r.trace[1].Publish?
              && r.trace[1].topic == PaymentRequestsTopic
              && Published(r.trace, PaymentRequestsTopic) == [r.trace[1].message]
              && r.trace[1].message.RequestEvent?
              && r.trace[1].message.request.transactionId == r.response.transactionId
    // nothing is ever published anywhere but on `payment-requests`
    ensures forall e :: e in r.trace && e.Publish? ==> e.topic == PaymentRequestsTopic
  {
    if IsNullOrEmpty(apiKey) then
      Handled(Unauthorized(MissingKeyMessage), [])
    else
      var key := ApiKeyLookupKey(apiKey.value);
      var lookup := LookupKey(key);
      if read.ReadFailed? then
        Handled(ServerError, [lookup])
      else if IsNullOrEmpty(StringGet(store, key)) then
        Handled(Unauthorized(InvalidKeyMessage), [lookup])
      else
        var event := EventFor(freshId, dto, apiKey.value);
        if produce.Acked? then
          Handled(Accepted(freshId, PendingStatus),
                  [lookup, Publish(PaymentRequestsTopic, RequestEvent(event))])
        else
          Handled(ServerError, [lookup])
  }

  /** The published event copies the order, amount, currency, card and
      webhook URL from the request body and carries the caller's key. */
  lemma PublishedEventCopiesRequest(apiKey: Option<string>, dto: CreatePaymentRequestDto,
                                    store: map<string, string>, read: ReadResult, freshId: Guid,
                                    produce: ProduceResult)
    requires CreatePayment(apiKey, dto, store, read, freshId, produce).response.Accepted?
    ensures var r := CreatePayment(apiKey, dto, store, read, freshId, produce);
            var e := r.trace[1].message.request;
            && e.transactionId == r.response.transactionId
            && e.orderId == dto.orderId
            && e.amount == dto.amount
            && e.currency == dto.currency
            && e.cardNumber == dto.cardNumber
            && e.webhookUrl == dto.webhookUrl
            && e.apiKey == apiKey.value
  {
  }

  /** One HTTP call as the controller sees it, with how its store read ends,
      the GUID it would mint and the produce outcome it meets. */
  datatype Submission = Submission(apiKey: Option<string>, dto: CreatePaymentRequestDto,
                                   read: ReadResult, freshId: Guid, produce: ProduceResult)

  function Serve(c: Submission, store: map<string, string>): Handled
  {
    CreatePayment(c.apiKey, c.dto, store, c.read, c.freshId, c.produce)
  }

  /** The call passed both key checks, so it minted its GUID and published. */
  predicate Accepts(c: Submission, store: map<string, string>)
  {
    Serve(c, store).response.Accepted?
  }

  /** The effects of one call: a publish only when accepted, and then
      exactly one, carrying the call's GUID. */
  function SubmissionTrace(c: Submission, store: map<string, string>): (t: seq<Effect>)
    ensures var p := Published(t, PaymentRequestsTopic);
            && |p| == (if Accepts(c, store) then 1 else 0)
            && forall m :: m in p ==> m.RequestEvent? && m.request.transactionId == c.freshId
  {
    var t := Serve(c, store).trace;
    if Accepts(c, store) then t
    else NoDurablePublishesNothing(t, PaymentRequestsTopic); t
  }

  /** The GUIDs minted by the accepted calls of a series. */
  function AcceptedIds(calls: seq<Submission>, store: map<string, string>): set<Guid>
  {
    set c | c in calls && Accepts(c, store) :: c.freshId
  }

  /** The effects of a series of calls against one credential store. */
  function ServeAll(calls: seq<Submission>, store: map<string, string>): (t: seq<Effect>)
    ensures forall m :: m in Published(t, PaymentRequestsTopic) ==>
              m.RequestEvent? && m.request.transactionId in AcceptedIds(calls, store)
  {
    if |calls| == 0 then []
    else
      var first := SubmissionTrace(calls[0], store);
      var rest := ServeAll(calls[1..], store);
      PublishedAppend(first, rest, PaymentRequestsTopic);
      assert AcceptedIds(calls[1..], store) <= AcceptedIds(calls, store) by {
        forall g | g in AcceptedIds(calls[1..], store) ensures g in AcceptedIds(calls, store) {
          var c :| c in calls[1..] && Accepts(c, store) && c.freshId == g;
          assert c in calls;
        }
      }
      first + rest
  }

  /** No two requests in `p` share a transaction id. */
  ghost predicate DistinctRequestIds(p: seq<Message>)
    requires forall m :: m in p ==> m.RequestEvent?
  {
    forall i, j :: 0 <= i < j < |p| ==> p[i].request.transactionId != p[j].request.transactionId
  }

  lemma DistinctPrepend(pf: seq<Message>, pr: seq<Message>, g: Guid)
    requires forall m :: m in pf ==> m.RequestEvent? && m.request.transactionId == g
    requires forall m :: m in pr ==> m.RequestEvent?
    requires |pf| == 1 ==> forall m :: m in pr ==> m.request.transactionId != g
    requires |pf| <= 1
    requires DistinctRequestIds(pr)
    ensures DistinctRequestIds(pf + pr)
  {
    var p := pf + pr;
    forall i, j | 0 <= i < j < |p|
      ensures p[i].request.transactionId != p[j].request.transactionId
    {
      if i >= |pf| {
        assert p[i] == pr[i - |pf|] && p[j] == pr[j - |pf|];
      } else {
        assert p[i] in pf;
        assert p[j] == pr[j - |pf|] && p[j] in pr;
      }
    }
  }

  /** The first element's id differs from the id of every later element
      that passes `ok`, when the ids of passing elements are pairwise
      different. */
  lemma FirstIdUnique<X>(xs: seq<X>, ok: X -> bool, id: X -> Guid)
    requires |xs| > 0 && ok(xs[0])
    requires forall i, j :: 0 <= i < j < |xs| && ok(xs[i]) && ok(xs[j]) ==> id(xs[i]) != id(xs[j])
    ensures forall d :: d in xs[1..] && ok(d) ==> id(d) != id(xs[0])
  {
    forall d | d in xs[1..] && ok(d) ensures id(d) != id(xs[0]) {
      var k :| 0 <= k < |xs[1..]| && xs[1..][k] == d;
      assert xs[k + 1] == d;
    }
  }

  lemma FirstIdNotAcceptedLater(calls: seq<Submission>, store: map<string, string>)
    requires |calls| > 0 && Accepts(calls[0], store)
    requires forall i, j :: 0 <= i < j < |calls| && Accepts(calls[i], store) && Accepts(calls[j], store) ==>
               calls[i].freshId != calls[j].freshId
    ensures calls[0].freshId !in AcceptedIds(calls[1..], store)
  {
    FirstIdUnique(calls, (c: Submission) => Accepts(c, store), (c: Submission) => c.freshId);
  }

  /** A GUID is minted only once both key checks have passed. When the
      accepted calls mint pairwise different GUIDs, no two published requests
      share a transaction id. */
  lemma {:induction false} DistinctIdsStayDistinct(calls: seq<Submission>, store: map<string, string>)
    requires forall i, j :: 0 <= i < j < |calls| && Accepts(calls[i], store) && Accepts(calls[j], store) ==>
               calls[i].freshId != calls[j].freshId
    ensures DistinctRequestIds(Published(ServeAll(calls, store), PaymentRequestsTopic))
  {
    if |calls| > 0 {
      var c := calls[0];
      var first := SubmissionTrace(c, store);
      var rest := ServeAll(calls[1..], store);
      DistinctIdsStayDistinct(calls[1..], store);
      PublishedAppend(first, rest, PaymentRequestsTopic);
      if Accepts(c, store) {
        FirstIdNotAcceptedLater(calls, store);
      }
      DistinctPrepend(Published(first, PaymentRequestsTopic), Published(rest, PaymentRequestsTopic), c.freshId);
    }
  }
}
