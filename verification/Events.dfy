/** Review events, as order-service writes them to its outbox and the analytics consumer reads them back. */
module Events {
  import opened Text

  type Id = int

  /** occurredAt counts nanoseconds; an event id that is no uuid does not occur as an Id. */
  datatype ReviewEvent = ReviewEvent(
    eventId: Id, eventType: string, reviewNo: string, orderNo: string, userId: nat, productId: nat, sku: nat,
    rating: nat, content: string, occurredAt: int, version: nat)

  /** A message body: a review event, the bytes of some other JSON document, or bytes that are not JSON. */
  datatype Payload = Review(event: ReviewEvent) | Json(bytes: string) | Malformed(bytes: string)

  const CONFIRMATION_TOPIC := "inventory.reservation.confirm"
  const REVIEW_TOPIC := "review.events"

  datatype Message = Message(topic: string, key: string, payload: Payload)

  /** The consumer's validation. `ZERO_TIME` is Go's zero time. */
  const ZERO_TIME: int := -62135596800_000_000_000

  predicate Valid(e: ReviewEvent) {
    && e.eventType == "review.submitted"
    && Trim(e.reviewNo) != "" && Trim(e.orderNo) != "" && e.userId != 0 && e.productId != 0 && e.sku != 0
    && 1 <= e.rating <= 5
    && Trim(e.content) != "" && |e.content| <= 1000
    && e.occurredAt != ZERO_TIME && e.version == 1
  }
}
