/**
 * The push subscription a browser registers: a JSON object such as
 * {"endpoint": ..., "keys": {...}}, stored as a nullable JSON column.
 */
module Subscriptions {

  import opened Wrappers

  /** A subscription object, member name to member value (nested members kept as opaque text). */
  type Descriptor = map<string, string>

  const ENDPOINT_KEY := "endpoint"

  /** Python truthiness of the stored column: `None` and the empty object `{}` are false. */
  predicate Truthy(subscription: Option<Descriptor>) {
    subscription.Some? && subscription.value != map[]
  }

  /**
   * The endpoint URL of a subscription, when it is truthy and has an "endpoint" member
   * (the test `subscription and 'endpoint' in subscription`).
   */
  function Endpoint(subscription: Option<Descriptor>): (e: Option<string>)
    ensures e.Some? <==> subscription.Some? && ENDPOINT_KEY in subscription.value
    ensures e.Some? ==> Truthy(subscription) && e.value == subscription.value[ENDPOINT_KEY]
  {
    if Truthy(subscription) && ENDPOINT_KEY in subscription.value then
      Some(subscription.value[ENDPOINT_KEY])
    else
      None
  }

  /** `subscription.get('endpoint', fallback)`. */
  function EndpointOr(subscription: Descriptor, fallback: string): string {
    if ENDPOINT_KEY in subscription then subscription[ENDPOINT_KEY] else fallback
  }
}
