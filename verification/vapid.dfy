/**
 * The VAPID claims (RFC 8292, section 2) sent with every push: a fixed subject, and
 * an audience derived from the subscription's endpoint.
 */
module Vapid {

  import opened Wrappers
  import opened Urls
  import opened Subscriptions

  /** The contact identifier sent as the "sub" claim. */
  const SUBJECT := "mailto:you@example.com"
  /** The push relay whose endpoints get a fixed audience. */
  const FCM_HOST := "fcm.googleapis.com"
  const FCM_AUDIENCE := "https://fcm.googleapis.com"

  /** The claims dictionary: "sub" always, "aud" only when the subscription has an endpoint. */
  datatype Claims = Claims(sub: string, aud: Option<string>)

  predicate StartsWith(s: string, prefix: string) {
    |prefix| <= |s| && s[..|prefix|] == prefix
  }

  /** Python's `part in s` on strings: `part` occurs somewhere in `s`. */
  predicate Contains(s: string, part: string)
    decreases |s|
  {
    StartsWith(s, part) || (|s| > 0 && Contains(s[1..], part))
  }

  lemma {:induction false} ContainsInside(before: string, part: string, after: string)
    ensures Contains(before + part + after, part)
  {
    var s := before + part + after;
    if |before| == 0 {
      assert s == part + after;
      assert s[..|part|] == part;
    } else {
      assert s[1..] == before[1..] + part + after;
      ContainsInside(before[1..], part, after);
    }
  }

  /**
   * The audience rule: an endpoint mentioning the FCM host anywhere gets the fixed FCM
   * audience; any other endpoint gets scheme "://" netloc of its URL.
   */
  function Audience(endpoint: string): (a: string)
    ensures Contains(endpoint, FCM_HOST) ==> a == FCM_AUDIENCE
    ensures !Contains(endpoint, FCM_HOST) ==>
      var parts := SplitUrl(endpoint);
      && a == parts.scheme + "://" + parts.netloc
      && forall j :: |parts.scheme| + 3 <= j < |a| ==> a[j] !in NETLOC_DELIMITERS
  {
    if Contains(endpoint, FCM_HOST) then
      FCM_AUDIENCE
    else
      var parts := SplitUrl(endpoint);
      parts.scheme + "://" + parts.netloc
  }

  /** `get_vapid_claims(subscription_info)`. */
  function GetVapidClaims(subscription: Option<Descriptor>): (c: Claims)
    ensures c.sub == SUBJECT
    ensures c.aud.None? <==> !Truthy(subscription) || ENDPOINT_KEY !in subscription.value
    ensures c.aud.Some? ==> c.aud.value == Audience(subscription.value[ENDPOINT_KEY])
  {
    match Endpoint(subscription)
    case None => Claims(SUBJECT, None)
    case Some(endpoint) => Claims(SUBJECT, Some(Audience(endpoint)))
  }

  /** Any endpoint that contains the FCM host, wherever it occurs, gets the fixed audience. */
  lemma AudienceOfFcm(before: string, after: string)
    ensures Audience(before + FCM_HOST + after) == FCM_AUDIENCE
  {
    ContainsInside(before, FCM_HOST, after);
  }

  /**
   * Any other endpoint scheme "://" netloc rest gets its own origin as audience: the
   * lower-cased scheme and the whole netloc (port included), with path, query and
   * fragment dropped.
   */
  lemma AudienceOfOrigin(scheme: string, netloc: string, rest: string)
    requires IsScheme(scheme)
    requires forall j :: 0 <= j < |netloc| ==> netloc[j] !in NETLOC_DELIMITERS
    requires rest == [] || rest[0] in NETLOC_DELIMITERS
    requires !Contains(scheme + "://" + netloc + rest, FCM_HOST)
    ensures Audience(scheme + "://" + netloc + rest) == LowerAscii(scheme) + "://" + netloc
  {
    SplitJoined(scheme, netloc, rest);
  }

  /** The claims of a subscription whose endpoint is an FCM URL. */
  lemma ClaimsForFcm(subscription: Descriptor, before: string, after: string)
    requires ENDPOINT_KEY in subscription && subscription[ENDPOINT_KEY] == before + FCM_HOST + after
    ensures GetVapidClaims(Some(subscription)) == Claims(SUBJECT, Some(FCM_AUDIENCE))
  {
    AudienceOfFcm(before, after);
  }
}
