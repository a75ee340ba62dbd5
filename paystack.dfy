/** What the two Paystack webhook handlers share: the fields of a Paystack
    event they read, and the signature check. */
module Paystack {
  import opened Common
  import opened Store
  import opened AdminGuard

  /** The fields of a Paystack event the handlers read (`None` for a field
      that is missing or `null`): `event`, `data.reference`,
      `data.metadata.user_id`, `data.customer.email`, `data.amount` (kobo),
      `data.currency` and `data.plan`. */
  datatype PaystackEvent = PaystackEvent(
    event: Option<string>,
    reference: Option<string>,
    metadataUserId: Option<string>,
    customerEmail: Option<string>,
    amount: Option<real>,
    currency: Option<string>,
    plan: Option<PlanValue>)

  /** The fields of a parsed body: JSON that is not an object (`null`, a
      number) has none, since optional chaining yields `undefined`. */
  function EventOf(json: Json<PaystackEvent>): (e: PaystackEvent)
    ensures json.Object? ==> e == json.body
    ensures !json.Object? ==> e.event.None? && e.reference.None? && e.metadataUserId.None? && e.customerEmail.None?
  {
    if json.Object? then json.body else PaystackEvent(None, None, None, None, None, None, None)
  }

  /** The `x-paystack-signature` header, lower-cased (an absent header is
      ""), equals `expected`, the hex HMAC-SHA512 of the raw body under the
      secret key. */
  predicate SignatureValid(header: Option<string>, expected: string) {
    Lower(OrElse(header, "")) == expected
  }

  /** The header is compared without regard to case. */
  lemma SignatureIgnoresCase(a: string, b: string, expected: string)
    requires Lower(a) == Lower(b)
    ensures SignatureValid(Some(a), expected) == SignatureValid(Some(b), expected)
  {
  }

  /** A request without the header is rejected (a digest is never empty). */
  lemma MissingSignatureRejected(expected: string)
    requires expected != ""
    ensures !SignatureValid(None, expected)
  {
  }
}
