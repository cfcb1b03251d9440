/**
 * The service's handlers over the users table: a store object whose methods update
 * the rows in place, each proved against the corresponding function of `Users`.
 */
module Store {

  import opened Wrappers
  import opened Subscriptions
  import opened Push
  import opened Users

  /** One entry of the `/user-subscriptions` listing; the keys are never exposed. */
  datatype UserSummary = UserSummary(name: string, hasSubscription: bool, endpoint: Option<string>, lastActive: Time)

  /** The reply of `/test-subscription/{user_name}`. */
  datatype TestReply =
    | UserNotFound
    | NoSubscription
    | Tested(user: string, hasSubscription: bool, testSuccess: bool, endpoint: string)

  const TEST_TITLE := "Test Notification"
  const TEST_MESSAGE := "This is a test notification from the server!"

  class UserStore {
    /** The rows of the users table, in primary-key order. */
    var users: seq<User>

    /** An empty table. */
    constructor ()
      ensures users == []
    {
      users := [];
    }

    /**
     * `POST /subscribe`: upsert by name. The named user ends up with exactly this
     * subscription and `last_active = now`, no other row changes, and unique names stay unique.
     */
    method Subscribe(name: string, subscription: Option<Descriptor>, now: Time) returns (status: string)
      modifies this
      ensures users == Upserted(old(users), name, subscription, now)
      ensures UniqueNames(old(users)) ==> UniqueNames(users)
      ensures status == "subscribed"
    {
      var found := FindByName(users, name);
      match found {
        case None =>
          users := users + [User(name, subscription, now)];
        case Some(i) =>
          users := users[i := users[i].(subscription := subscription, lastActive := now)];
      }
      status := "subscribed";
    }

    /**
     * `POST /heartbeat`: the named user's `last_active` becomes `now`, its subscription
     * untouched; an unknown name changes nothing. The reply is always the same.
     */
    method Heartbeat(name: string, now: Time) returns (status: string)
      modifies this
      ensures users == Touched(old(users), name, now)
      ensures status == "heartbeat updated"
    {
      var found := FindByName(users, name);
      if found.Some? {
        var i := found.value;
        users := users[i := users[i].(lastActive := now)];
      }
      status := "heartbeat updated";
    }

    /** `remove_expired_subscription`: clear the first row holding this subscription. */
    method RemoveExpiredSubscription(subscription: Descriptor)
      modifies this
      ensures users == RemoveExpired(old(users), subscription)
    {
      var found := FindBySubscription(users, subscription);
      if found.Some? {
        var i := found.value;
        users := users[i := users[i].(subscription := None)];
      }
    }

    /**
     * `send_push_notification`: a falsy subscription returns false without calling the
     * transport; otherwise the transport gets the request built for it, success is
     * exactly its acceptance, and only a 410 answer removes the subscription.
     */
    method SendPushNotification(subscription: Option<Descriptor>, title: string, message: string,
                                transport: PushRequest -> TransportResult) returns (success: bool)
      modifies this
      ensures !Truthy(subscription) ==> !success && users == old(users)
      ensures Truthy(subscription) ==>
        var r := transport(BuildRequest(subscription, title, message).value);
        success == (r == Accepted) && users == AfterSend(old(users), subscription.value, r)
    {
      var request := BuildRequest(subscription, title, message);
      if request.None? {
        return false;
      }
      var result := transport(request.value);
      match Classify(result) {
        case Delivered =>
          success := true;
        case Gone =>
          RemoveExpiredSubscription(request.value.subscription);
          success := false;
        case AuthRejected =>
          success := false;
        case Failed =>
          success := false;
      }
    }

    /**
     * `check_inactive_users` at time `now`: every row strictly older than a minute is
     * visited in table order; `transport(i)` is the answer to row i's notification.
     * What the scan does is proved about `Scan` in ScanProperties.
     */
    method CheckInactiveUsers(now: Time, transport: nat -> TransportResult) returns (successful: nat, failed: nat)
      modifies this
      ensures (users, Tally(successful, failed)) == Scan(old(users), now, transport)
    {
      ghost var start := users;
      var selected := SelectInactive(users, now);
      assert Indices(selected, start);
      successful, failed := 0, 0;
      var k := 0;
      while k < |selected|
        invariant k <= |selected| && Indices(selected, start)
        invariant (users, Tally(successful, failed)) == ScanPrefix(start, selected, k, now, transport)
      {
        var i := selected[k];
        ghost var before, counted := users, Tally(successful, failed);
        var subscription := users[i].subscription;
        if !Truthy(subscription) {
          ScanPrefixSkipped(start, selected, k, now, transport, before, counted);
        } else {
          var success := SendPushNotification(subscription, REMINDER_TITLE, REMINDER_MESSAGE,
                                               (request: PushRequest) => transport(i));
          if success {
            ScanPrefixDelivered(start, selected, k, now, transport, before, counted);
            successful := successful + 1;
            users := users[i := users[i].(lastActive := now)];
          } else {
            ScanPrefixFailed(start, selected, k, now, transport, before, counted);
            failed := failed + 1;
          }
        }
        k := k + 1;
      }
    }

    /**
     * `GET /test-subscription/{user_name}`: an unknown name and a falsy subscription
     * are reported without sending; otherwise one test push is sent, and the reply
     * carries the endpoint of the subscription as it was before the send.
     */
    method TestSubscription(userName: string, transport: PushRequest -> TransportResult) returns (reply: TestReply)
      modifies this
      ensures FindByName(old(users), userName).None? ==> reply == UserNotFound && users == old(users)
      ensures FindByName(old(users), userName).Some? ==>
        var u := old(users)[FindByName(old(users), userName).value];
        if !Truthy(u.subscription) then reply == NoSubscription && users == old(users)
        else
          var r := transport(BuildRequest(u.subscription, TEST_TITLE, TEST_MESSAGE).value);
          && reply == Tested(userName, true, r == Accepted, EndpointOr(u.subscription.value, "unknown"))
          && users == AfterSend(old(users), u.subscription.value, r)
    {
      var found := FindByName(users, userName);
      if found.None? {
        return UserNotFound;
      }
      var user := users[found.value];
      if !Truthy(user.subscription) {
        return NoSubscription;
      }
      var success := SendPushNotification(user.subscription, TEST_TITLE, TEST_MESSAGE, transport);
      reply := Tested(user.name, user.subscription.Some?, success, EndpointOr(user.subscription.value, "unknown"));
    }

    /**
     * `GET /user-subscriptions`: one summary per row, in table order, with the row's
     * name and last_active, whether its column is non-null, and its endpoint only when
     * the subscription is truthy and has one.
     */
    method GetUserSubscriptions() returns (result: seq<UserSummary>)
      ensures |result| == |users|
      ensures forall i :: 0 <= i < |users| ==>
        && result[i].name == users[i].name
        && result[i].lastActive == users[i].lastActive
        && (result[i].hasSubscription <==> users[i].subscription.Some?)
        && result[i].endpoint == Endpoint(users[i].subscription)
    {
      result := [];
      for i := 0 to |users|
        invariant |result| == i
        invariant forall j :: 0 <= j < i ==>
          result[j] == UserSummary(users[j].name, users[j].subscription.Some?, Endpoint(users[j].subscription), users[j].lastActive)
      {
        var user := users[i];
        var endpoint: Option<string> := None;
        if Truthy(user.subscription) && ENDPOINT_KEY in user.subscription.value {
          endpoint := Some(user.subscription.value[ENDPOINT_KEY]);
        }
        result := result + [UserSummary(user.name, user.subscription.Some?, endpoint, user.lastActive)];
      }
    }
  }
}
