# Inactivity push notifications — a Dafny model

This project models the core of a small push-notification backend (`main.py`). The
service keeps a table of users. Each row holds a name, an optional Web Push
subscription (a JSON object with an `endpoint` URL and encryption keys) and a
`last_active` timestamp. The model covers:

- the handlers that change the table: `subscribe` (upsert by name) and `heartbeat`
  (touch `last_active`);
- the VAPID claims sent with each push (RFC 8292, section 2). The `sub` claim is a
  fixed contact address. The `aud` claim is either a fixed FCM audience or the
  scheme and netloc of the endpoint URL;
- `send_push_notification`, which builds the payload and request and reads the
  transport's answer. Its handler is meant to remove the subscription when the push
  service reports HTTP 410 (Gone). As written, that branch never runs (see
  "## Findings"). The store models the corrected handler `Push.Classify`, and the
  handler as written is `Push.ClassifyAsWritten`;
- the periodic `check_inactive_users` scan. It notifies every user inactive for more
  than a minute, resets `last_active` after a delivered push, and counts successes
  and failures;
- the read-only endpoints `test_subscription` and `get_user_subscriptions`.

Modules, leaves first:

| file | module | what it holds |
|---|---|---|
| wrappers.dfy | `Wrappers` | `Option` |
| urls.dfy | `Urls` | the scheme and netloc split of `urllib.parse.urlparse` |
| subscriptions.dfy | `Subscriptions` | the subscription object, its Python truthiness, its endpoint |
| vapid.dfy | `Vapid` | the claims and the audience rule |
| push.dfy | `Push` | payload, request, transport answers, their classification |
| users.dfy | `Users` | the table as a value: rows, lookups, upsert, touch, removal, the scan as a fold |
| scan_properties.dfy | `ScanProperties` | what the scan does to rows and counters |
| store.dfy | `Store` | the class `UserStore`, whose methods update the table in place |

The table is the field `users: seq<User>` of `Store.UserStore`, with rows in primary-key
order. It is a sequence rather than a map for two reasons. Nothing in the table makes
names unique. Also, `.first()` picks the first matching row in that order, both for a
name and for a subscription. Each method is proved against a function of `Users`
(`Upserted`, `Touched`, `RemoveExpired`, `AfterSend`, `Scan`). The properties are then
proved about those functions.

The oracles are:

- **Transport.** `webpush` becomes a function from the request to a `TransportResult`:
  `Accepted`, `WebPushError(status)`, `WebPushErrorNoResponse` or `OtherError`. In the
  scan, `transport(i)` is the answer to row `i`'s notification.
- **Clock.** Every `datetime.utcnow()` becomes a parameter `now` (a time in
  microseconds).

Facts of the code that the model keeps:

- A row has no `status` column. A null subscription means "not subscribed".
- The scan selects every row whose `last_active` is strictly older than one minute.
  Rows without a truthy subscription are skipped inside the loop.
- In the corrected handler, a 403 answer is only logged. It returns `False` like any
  other failure, and a 410 answer counts as a failure too. As written, neither is
  recognised at all.
- `heartbeat` always answers `"heartbeat updated"`, whether or not the name exists.
- The audience keeps the whole netloc, port and user info included, and not just the
  host. The scheme is lower-cased, as `urlsplit` does.

## Model

| member | source | states |
|---|---|---|
| `Urls.SplitUrl` | main.py:109-110 | the scheme is lower-case text without ":"; the netloc holds no "/", "?" or "#" |
| `Urls.SplitJoined` | main.py:109-110 | round trip: `scheme://netloc` followed by a path, query or fragment splits back into the lower-cased scheme and exactly that netloc, port included |
| `Subscriptions.Endpoint` | main.py:289-291 | an endpoint is reported exactly when the subscription is non-null and has an `endpoint` member, and then it is that member's value |
| `Vapid.GetVapidClaims` | main.py:96-115 | `sub` is always `mailto:you@example.com`; `aud` is absent exactly when the subscription is falsy or has no endpoint, and otherwise is the audience of the endpoint |
| `Vapid.Audience` | main.py:104-110 | an endpoint containing the FCM host gets the fixed FCM audience; any other gets its scheme, `://` and netloc, with no "/", "?" or "#" after the `://` |
| `Vapid.AudienceOfFcm` | main.py:104-106 | any endpoint containing `fcm.googleapis.com`, anywhere, gets the audience `https://fcm.googleapis.com` |
| `Vapid.AudienceOfOrigin` | main.py:107-110 | any other endpoint `scheme://netloc/rest` gets `scheme://netloc`, with path, query and fragment dropped |
| `Vapid.ClaimsForFcm` | main.py:101-114 | the full claims for an FCM endpoint: the fixed subject and the fixed FCM audience |
| `Push.BuildRequest` | main.py:118-143 | no request (so no transport call) exactly for a falsy subscription; otherwise the payload is `{title, body, icon}`, the timeout 10 s, and the claims are exactly `get_vapid_claims` of the subscription: the fixed subject, and the endpoint's audience exactly when there is an endpoint |
| `Push.Classify` | main.py:144-162 | the corrected handler: a send succeeds exactly when the transport accepts it; only a 410 response is Gone and only a 403 response is an authorisation failure |
| `Push.ClassifyAsWritten` | main.py:144-162 | the handler as written: a send succeeds exactly when the transport accepts it, and no answer is ever classified as Gone or as an authorisation failure |
| `Push.GoneResponseIsMissed` | main.py:149-155 | a 410 response is Gone when its presence is tested, and a plain failure under the truthiness test the code writes |
| `Push.AsWrittenAgreesElsewhere` | main.py:147-162 | the two readings agree on every answer other than a 403 or 410 response |
| `Users.FindByName` | main.py:74 | the row found has the name and no earlier row has it; no row is found only when no row has the name |
| `Users.FindBySubscription` | main.py:168 | the row found holds the subscription and no earlier row does; none is found only when no row holds it |
| `Users.Upserted` | main.py:74-80 | the first row with the name, if any, keeps its name and gets exactly the given subscription and `last_active = now`; otherwise one row is appended; no other row changes; unique names stay unique |
| `Users.Touched` | main.py:89-91 | a known name gets `last_active = now` with its name and subscription untouched and no other row changed; an unknown name leaves the table unchanged |
| `Users.HeartbeatLastWriteWins` | main.py:89-91 | of two heartbeats for one name, the later one alone decides the table |
| `Users.SubscribeIdempotent` | main.py:74-80 | subscribing twice with the same data gives the table one subscribe gives |
| `Users.RemoveExpired` | main.py:164-171 | names and `last_active` never change; only the first row holding the subscription can change, and it loses its subscription |
| `Users.AfterSend` | main.py:147-162 | under the corrected handler, only a 410 answer changes the table, by removing the sent subscription; every other answer leaves it as it was |
| `Users.AfterSendAsWritten` | main.py:147-162 | the table effect of the handler as written: an answer it does not read as Gone leaves the table as it was |
| `Users.AsWrittenKeepsTable` | main.py:147-171 | under the handler as written, no answer changes the table, while under the corrected one a 410 for a held subscription does |
| `Users.Stale` | main.py:184-185 | a row is stale exactly when it has been inactive for more than one minute |
| `Users.SelectInactive` | main.py:184-185 | exactly the rows with `last_active < now - 1 minute` (a strict comparison) are selected, in table order |
| `Users.Visit` | main.py:193-209 | one iteration: an unsubscribed row is skipped with the counters unchanged; otherwise exactly one counter grows, and only a delivered push sets that row's `last_active = now`; names and the row count are kept |
| `Users.VisitSubscriptions` | main.py:193-207 | one iteration's effect on subscriptions: a 410 (corrected handler) to a subscribed row removes that subscription from the first row holding it; a 403, a timeout or any other answer changes no subscription |
| `Users.ScanPrefix` | main.py:192-209 | the scan keeps every row, and its name, and counts at most one outcome per visited row |
| `Users.Scan` | main.py:179-218 | the fold over the stale rows keeps every row and its name, and counts at most one outcome per stale row |
| `ScanProperties.CountSubscribed` | main.py:193 | the number of selected rows holding a truthy subscription never exceeds the number selected |
| `ScanProperties.CountSubscribedExtremes` | main.py:193 | all the selected rows are counted exactly when every one holds a truthy subscription, and none exactly when none does |
| `ScanProperties.ScanFrame` | main.py:192-211 | during the scan a row keeps its name, gets `last_active = now` only if visited, can lose but never gain a subscription, and is not touched at all without a truthy subscription |
| `ScanProperties.ScanAhead` | main.py:153-155 | rows after the one being visited are never changed by a 410 removal of the corrected handler |
| `ScanProperties.ScanTally` | main.py:189-207 | on every table, duplicated subscriptions included, the counters are the delivered and the failed among the visited subscribed rows, so `successful + failed` is their number |
| `ScanProperties.ScanLastActive` | main.py:192-204 | on every table, a row's `last_active` becomes `now` exactly when it was visited, subscribed and its push was delivered |
| `ScanProperties.ScanCounters` | main.py:179-218 | the whole scan on every table: counters of delivered and failed subscribed stale rows, and `last_active = now` exactly for the stale subscribed rows whose push was delivered |
| `ScanProperties.ScanClearedByGone` | main.py:153-155 | on every table, duplicated subscriptions included: a subscription the visits changed was cleared, by a 410 (corrected handler) answered by a visited row at or after it holding the same subscription; a 403 or any other answer changes none |
| `ScanProperties.ScanSubscriptions` | main.py:179-218 | the whole scan on every table: a changed subscription was cleared, by a 410 (corrected handler) answered by a stale row at or after it holding the same subscription |
| `ScanProperties.Tallied` | main.py:201-207 | the expected counters add up to the subscribed visited rows |
| `ScanProperties.GoneClearsOwnRow` | main.py:164-171 | with distinct subscriptions, a 410 (corrected handler) for a row not yet visited clears that row itself and no other |
| `ScanProperties.ScanDistinct` | main.py:192-209 | with distinct subscriptions, the scan yields each visited row notified on its own, a 410 included |
| `ScanProperties.ScanEffects` | main.py:179-218 | the whole scan: names kept, `last_active` unchanged for non-stale rows and otherwise unchanged or `now`, subscriptions only cleared, unsubscribed rows untouched, counters add up to the subscribed stale rows, unique names kept |
| `ScanProperties.ScanSummary` | main.py:201-213 | every row whose `last_active` changed holds `now` and is no longer stale; the counters add up to the subscribed stale rows |
| `ScanProperties.ResetRowsAreFresh` | main.py:201-204 | a user the scan reset is not selected again at the same `now` |
| `ScanProperties.ScanOutcome` | main.py:184-209 | with distinct subscriptions, the whole row outcome: a delivered push sets `last_active = now`, a 410 clears that user's subscription, other failures change nothing, rows that are not stale are unchanged; the counters are those outcomes (on every table, by `ScanCounters`) |
| `Store.UserStore.constructor` | main.py:57-64 | the store starts as an empty users table |
| `Store.UserStore.Subscribe` | main.py:70-83 | the table becomes the upsert of the row, unique names stay unique, and the reply is `subscribed` |
| `Store.UserStore.Heartbeat` | main.py:85-94 | the table becomes the touched table; the reply is always `heartbeat updated` |
| `Store.UserStore.RemoveExpiredSubscription` | main.py:164-176 | the first row holding the subscription loses it; nothing else changes |
| `Store.UserStore.SendPushNotification` | main.py:118-162 | a falsy subscription returns false with no transport call and no change; otherwise success is exactly acceptance, and the table changes only by the 410 removal of the corrected handler `Push.Classify` |
| `Store.UserStore.CheckInactiveUsers` | main.py:179-218 | the table and the counters become those of `Scan` (with the corrected handler), whose properties are the `ScanProperties` lemmas |
| `Store.UserStore.TestSubscription` | main.py:253-278 | an unknown name or a falsy subscription is reported without a send; otherwise one test push is sent, and the reply gives the user, the push's success and the endpoint as it was before the send; the table changes as `Users.AfterSend` (the corrected handler) says |
| `Store.UserStore.GetUserSubscriptions` | main.py:280-300 | one summary per row in table order, with its name and `last_active`, whether its column is non-null, and its endpoint only when the subscription is truthy and has one |

## Findings

| source | as written | input that shows it | evidently intended | confidence | as-written member | corrected member |
|---|---|---|---|---|---|---|
| main.py:149-157 | `if hasattr(e, 'response') and e.response:` tests the truthiness of a `requests.Response`. `Response.__bool__` returns `Response.ok`, which is false for any status from 400 to 599. So the 410 and 403 branches can never run, and an expired subscription is never removed | a WebPushException carrying a response with status 410 (`WebPushError(410)`) | test for a response that is present (`e.response is not None`), so that a 410 removes the subscription | high, not executed | `Push.GoneResponseIsMissed` | `Push.Classify` |

`Push.ClassifyAsWritten` models the handler as written, and its contract shows that no
answer reaches its Gone branch. `Users.AsWrittenKeepsTable` carries this to the table:
as written, a send never changes it. The rest of the model uses the corrected
`Push.Classify`, and every removal and scan property above is about that handler.

## Left out

- HTTP routing, request JSON parsing and CORS (main.py:13-22 and the route decorators),
  `get_vapid_public_key` and `root`. A request missing `name` or `subscription` raises
  in the framework; the model takes both as parameters.
- SQLAlchemy engine, sessions and commits (main.py:24-27, 57-64). The table is a value
  in a field. Database errors, and the `except Exception` handlers around them in
  `check_inactive_users` and `remove_expired_subscription`, are not modelled.
- `.first()` and `.all()` have no ORDER BY. The model takes rows in primary-key order.
  The JSON column comparison in `remove_expired_subscription` is modelled as equality
  of values.
- `generate_vapid_keys` (main.py:29-56). It calls a foreign crypto library. The private
  key passed to `webpush` is left out of `Push.PushRequest`.
- The `webpush` transport itself: payload encryption, the signature and the network.
  It is an oracle, and the 10-second timeout is only recorded in the request.
- The APScheduler setup, its thread pool and shutdown (main.py:220-247, 302-307):
  concurrency and timing. The model runs one scan at a time, and nothing else happens
  during a scan.
- All `print` logging, including the 403 diagnostic, which does nothing else.
- Store.UserStore.CheckInactiveUsers: uses one `now` for the selection and for every
  reset. The source reads the clock again at each delivered push, which gives an
  instant no earlier than `now`.
- Urls.SplitUrl: does not model the stripping of leading control characters and
  spaces, the removal of tabs and newlines, or the `ValueError` for malformed IPv6
  brackets in `urlsplit`, nor the `ValueError` of `_checknetloc` for a non-ASCII netloc that
  NFKC normalisation turns into one containing "/", "?", "#", "@" or ":". Any of these raising inside `send_push_notification` would
  end as `False` without a send.
- Subscriptions: a subscription is modelled only as a JSON object with string member
  values. `/subscribe` also accepts a truthy string or list, or an object with a
  non-string `endpoint`. For a string or list, `subscription.get` at main.py:131 raises
  inside the `try`, so the send ends as `False` without a call to the transport. These
  values are not modelled.
- Users.AfterSend: models the corrected handler `Push.Classify`, where a 410 removes the
  subscription. As written (main.py:149), no answer changes the table
  (`Users.AsWrittenKeepsTable`).
- Store.UserStore.SendPushNotification: uses `Users.AfterSend`, so a 410 removes the
  subscription, which the code as written never does.
- Store.UserStore.CheckInactiveUsers: a 410 in the scan removes a subscription only under
  the corrected handler. As written, the scan changes the table only by `last_active`
  resets. A whole scan under the handler as written is not modelled separately.
- Store.UserStore.TestSubscription: a 410 answer to the test push removes the
  subscription only under the corrected handler.
- ScanProperties.ScanClearedByGone: the 410 removals it reasons about happen only under
  the corrected handler. As written, a scan changes no subscription.
- ScanProperties.ScanSubscriptions: the same, for the whole scan.
- ScanProperties.ScanAhead: the 410 removals it reasons about happen only under the
  corrected handler.
- ScanProperties.GoneClearsOwnRow: the same, for the 410 removal of a row's own
  subscription.
- ScanProperties.ScanDistinct: the 410 case of `Notified` holds only under the
  corrected handler.
- ScanProperties.ScanOutcome: its 410 clause holds only under the corrected handler.
