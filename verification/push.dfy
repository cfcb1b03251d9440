/**
 * One push attempt: the request `send_push_notification` hands to the web-push
 * transport, and how the transport's answer is classified.
 */
module Push {

  import opened Wrappers
  import opened Subscriptions
  import opened Vapid

  const ICON := "https://via.placeholder.com/64"
  /** Seconds the transport may wait for the push service. */
  const TIMEOUT_SECONDS := 10
  /** HTTP status of a subscription the push service no longer knows. */
  const GONE := 410
  /** HTTP status of a push the service refused to authorise. */
  const FORBIDDEN := 403

  /** The JSON payload {"title", "body", "icon"}. */
  datatype Payload = Payload(title: string, body: string, icon: string)

  /** The arguments of the `webpush(...)` call (the private key is left out). */
  datatype PushRequest = PushRequest(subscription: Descriptor, data: Payload, claims: Claims, timeout: nat)

  /**
   * What the transport does with one request: it returns normally, raises a
   * WebPushException carrying an HTTP response with a status, raises one without a
   * response, or raises any other exception.
   */
  datatype TransportResult = Accepted | WebPushError(status: int) | WebPushErrorNoResponse | OtherError

  /** How the sender reads a transport result. */
  datatype DeliveryOutcome = Delivered | Gone | AuthRejected | Failed

  /**
   * The request sent for a subscription, or None when the subscription is falsy and
   * the transport is not called at all.
   */
  function BuildRequest(subscription: Option<Descriptor>, title: string, message: string): (r: Option<PushRequest>)
    ensures r.None? <==> !Truthy(subscription)
    ensures r.Some? ==> r.value.subscription == subscription.value
    ensures r.Some? ==> r.value.data == Payload(title, message, ICON) && r.value.timeout == TIMEOUT_SECONDS
    ensures r.Some? ==> r.value.claims.sub == SUBJECT
    ensures r.Some? ==> (r.value.claims.aud.Some? <==> ENDPOINT_KEY in subscription.value)
    ensures r.Some? ==> r.value.claims == GetVapidClaims(subscription)
  {
    if !Truthy(subscription) then None
    else
      Some(PushRequest(subscription.value, Payload(title, message, ICON),
                       GetVapidClaims(subscription), TIMEOUT_SECONDS))
  }

  /**
   * The handler of a WebPushException, reading a response that is present whatever
   * its status (`e.response is not None`): the send succeeds exactly when the transport
   * accepted it, only a 410 response means the subscription is gone, and only a 403
   * response means authorisation was refused.
   */
  function Classify(r: TransportResult): (o: DeliveryOutcome)
    ensures o == Delivered <==> r == Accepted
    ensures o == Gone <==> r == WebPushError(GONE)
    ensures o == AuthRejected <==> r == WebPushError(FORBIDDEN)
  {
    match r
    case Accepted => Delivered
    case WebPushError(status) =>
      if status == GONE then Gone else if status == FORBIDDEN then AuthRejected else Failed
    case WebPushErrorNoResponse => Failed
    case OtherError => Failed
  }

  /**
   * Python truthiness of the exception's `requests.Response`: `Response.__bool__`
   * returns `Response.ok`, which is false exactly for a client or server error status.
   */
  predicate ResponseTruthy(status: int) {
    !(400 <= status < 600)
  }

  /**
   * The handler as the source writes it: `if hasattr(e, 'response') and e.response:`.
   * A 410 or 403 response is falsy, so no answer is ever read as Gone or AuthRejected.
   */
  function ClassifyAsWritten(r: TransportResult): (o: DeliveryOutcome)
    ensures o == Delivered <==> r == Accepted
    ensures o != Gone && o != AuthRejected
  {
    match r
    case Accepted => Delivered
    case WebPushError(status) =>
      if !ResponseTruthy(status) then Failed
      else if status == GONE then Gone
      else if status == FORBIDDEN then AuthRejected
      else Failed
    case WebPushErrorNoResponse => Failed
    case OtherError => Failed
  }

  /** The input that shows it: a 410 response is Gone when read, Failed as written. */
  lemma GoneResponseIsMissed()
    ensures Classify(WebPushError(GONE)) == Gone
    ensures ClassifyAsWritten(WebPushError(GONE)) == Failed
  {
  }

  /** Both readings agree on every result that is not a 403 or 410 response. */
  lemma AsWrittenAgreesElsewhere(r: TransportResult)
    requires r != WebPushError(GONE) && r != WebPushError(FORBIDDEN)
    ensures ClassifyAsWritten(r) == Classify(r)
  {
  }
}
