/**
  The records the recommendation service reads and writes: interaction events
  (the `events` collection) and the per-user recommendation documents (the
  `user_recommendations` collection). Instants are modelled as `nat`.
 */
module Models {

  /** The three interaction kinds the event endpoint accepts. */
  const View: string := "VIEW"
  const CartAdd: string := "CART_ADD"
  const Purchase: string := "PURCHASE"

  predicate KnownEventType(t: string) {
    t == View || t == CartAdd || t == Purchase
  }

  /** One recorded interaction; the event type is stored as the string it arrived as. */
  datatype Event = Event(userId: string, productId: string, eventType: string, timestamp: nat)

  /** The stored/cached form of one scored product: only these four fields survive decoding. */
  datatype ProductRecommendation = ProductRecommendation(productId: string, score: real, count: nat, lastInteraction: nat)

  datatype UserRecommendation = UserRecommendation(userId: string, products: seq<ProductRecommendation>)
}
