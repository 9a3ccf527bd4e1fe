/** Records exchanged between the three services of the payment pipeline:
    the request DTO accepted over HTTP, the two Kafka events, the audit
    document written to MongoDB and the webhook body sent to merchants.
    Values the services only carry through (amounts, timestamps, JSON text)
    are kept as opaque data. */
module Contracts {

  datatype Option<T> = None | Some(value: T)

  /** A .NET `Guid`: 128 bits. */
  newtype Guid = x: int | 0 <= x < 0x1_0000_0000_0000_0000_0000_0000_0000_0000

  /** A .NET `decimal`, carried through unchanged (no arithmetic is done on it). */
  datatype Decimal = Decimal(significand: int, scale: nat)

  /** A `DateTime.UtcNow` reading, supplied by the caller of each operation. */
  datatype Timestamp = Timestamp(ticks: nat)

  /** Body of `POST /api/payments`. */
  datatype CreatePaymentRequestDto = CreatePaymentRequestDto(
    orderId: string,
    amount: Decimal,
    currency: string,
    cardNumber: string,
    webhookUrl: string)

  /** Event on topic `payment-requests`. */
  datatype PaymentRequestReceived = PaymentRequestReceived(
    transactionId: Guid,
    orderId: string,
    amount: Decimal,
    currency: string,
    cardNumber: string,
    webhookUrl: string,
    apiKey: string)

  /** Event on topic `payment-outcomes`. */
  datatype PaymentProcessed = PaymentProcessed(
    transactionId: Guid,
    orderId: string,
    status: string,
    failureReason: string,
    webhookUrl: string)

  /** Document of the `TransactionLogs` collection. `id` is the storage
      identity, assigned by the store on insert and absent before. */
  datatype TransactionLog = TransactionLog(
    id: Option<string>,
    transactionId: Guid,
    orderId: string,
    status: string,
    reason: string,
    timestamp: Timestamp,
    requestData: PaymentRequestReceived)

  /** JSON body POSTed to a merchant's webhook URL. */
  datatype WebhookPayload = WebhookPayload(
    transactionId: Guid,
    orderId: string,
    status: string,
    failureReason: string,
    timestamp: Timestamp)

  /** The value of a Kafka message as a consumer sees it: either the JSON of
      an event of the topic's type, or text that does not deserialise to one. */
  datatype Wire<E> = Encoded(event: E) | Malformed(text: string)

  /** How an awaited `ProduceAsync` ends: acknowledged by the broker, failed
      with a produce exception, or cancelled through the stopping token. */
  datatype ProduceResult = Acked | ProduceFailed | ProduceCancelled

  const PaymentRequestsTopic: string := "payment-requests"
  const PaymentOutcomesTopic: string := "payment-outcomes"

  const SuccessStatus: string := "Success"
  const FailureStatus: string := "Failure"
  const PendingStatus: string := "Pending"
}
