/**
 * The users table as a value: its rows in primary-key order, and the effect of each
 * operation of the service on it, stated as functions of the rows.
 */
module Users {

  import opened Wrappers
  import opened Subscriptions
  import opened Push

  /** Timestamps in microseconds, the resolution of Python's `datetime`. */
  type Time = int

  /** The inactivity window, `timedelta(minutes=1)`. */
  const ONE_MINUTE: Time := 60_000_000

  /** A row of the users table; a None subscription means the user is not subscribed. */
  datatype User = User(name: string, subscription: Option<Descriptor>, lastActive: Time)

  /** No two rows share a name (the table itself does not enforce this). */
  ghost predicate UniqueNames(users: seq<User>) {
    forall a, b :: 0 <= a < b < |users| ==> users[a].name != users[b].name
  }

  /** The first row satisfying `p`, as `query(...).filter(...).first()` finds it. */
  function FirstWhere(users: seq<User>, p: User -> bool): (r: Option<nat>)
    ensures r.Some? ==> r.value < |users| && p(users[r.value])
    ensures r.Some? ==> forall j :: 0 <= j < r.value ==> !p(users[j])
    ensures r.None? ==> forall j :: 0 <= j < |users| ==> !p(users[j])
  {
    if |users| == 0 then None
    else if p(users[0]) then Some(0)
    else match FirstWhere(users[1..], p)
      case None => None
      case Some(j) => Some(j + 1)
  }

  /** The row `filter(User.name == name).first()` returns. */
  function FindByName(users: seq<User>, name: string): (r: Option<nat>)
    ensures r.Some? ==> r.value < |users| && users[r.value].name == name
    ensures r.Some? ==> forall j :: 0 <= j < r.value ==> users[j].name != name
    ensures r.None? ==> forall j :: 0 <= j < |users| ==> users[j].name != name
  {
    FirstWhere(users, (u: User) => u.name == name)
  }

  /** The row `filter(User.subscription == subscription).first()` returns. */
  function FindBySubscription(users: seq<User>, subscription: Descriptor): (r: Option<nat>)
    ensures r.Some? ==> r.value < |users| && users[r.value].subscription == Some(subscription)
    ensures r.Some? ==> forall j :: 0 <= j < r.value ==> users[j].subscription != Some(subscription)
    ensures r.None? ==> forall j :: 0 <= j < |users| ==> users[j].subscription != Some(subscription)
  {
    FirstWhere(users, (u: User) => u.subscription == Some(subscription))
  }

  /**
   * `subscribe`: the first row with that name gets the subscription and `now`;
   * a new row is appended only when no row has that name.
   */
  function Upserted(users: seq<User>, name: string, subscription: Option<Descriptor>, now: Time): (r: seq<User>)
    ensures FindByName(r, name).Some? && r[FindByName(r, name).value] == User(name, subscription, now)
    ensures |r| == if FindByName(users, name).None? then |users| + 1 else |users|
    ensures FindByName(users, name).Some? ==>
      var i := FindByName(users, name).value;
      r[i] == users[i].(subscription := subscription, lastActive := now)
    ensures forall j :: 0 <= j < |users| && Some(j) != FindByName(users, name) ==> r[j] == users[j]
    ensures UniqueNames(users) ==> UniqueNames(r)
  {
    match FindByName(users, name)
    case None =>
      var r := users + [User(name, subscription, now)];
      assert forall j :: 0 <= j < |users| ==> r[j] == users[j];
      assert r[|users|].name == name;
      r
    case Some(i) =>
      var r := users[i := users[i].(subscription := subscription, lastActive := now)];
      assert r[i].name == name;
      r
  }

  /**
   * `heartbeat`: the first row with that name gets `last_active = now`, its name and
   * subscription untouched; an unknown name leaves the table as it was.
   */
  function Touched(users: seq<User>, name: string, now: Time): (r: seq<User>)
    ensures |r| == |users|
    ensures FindByName(users, name).None? ==> r == users
    ensures FindByName(users, name).Some? ==>
      var i := FindByName(users, name).value;
      r[i] == users[i].(lastActive := now) && forall j :: 0 <= j < |users| && j != i ==> r[j] == users[j]
  {
    match FindByName(users, name)
    case None => users
    case Some(i) => users[i := users[i].(lastActive := now)]
  }

  /** Of two heartbeats for the same name, the later one decides last_active. */
  lemma HeartbeatLastWriteWins(users: seq<User>, name: string, first: Time, second: Time)
    ensures Touched(Touched(users, name, first), name, second) == Touched(users, name, second)
  {
  }

  /** Subscribing again with the same subscription at the same time changes nothing more. */
  lemma SubscribeIdempotent(users: seq<User>, name: string, subscription: Option<Descriptor>, now: Time)
    ensures Upserted(Upserted(users, name, subscription, now), name, subscription, now)
      == Upserted(users, name, subscription, now)
  {
  }

  /**
   * `remove_expired_subscription`: only the first row holding that subscription
   * changes, and only its subscription, which becomes None.
   */
  function RemoveExpired(users: seq<User>, subscription: Descriptor): (r: seq<User>)
    ensures |r| == |users|
    ensures forall j :: 0 <= j < |users| ==> r[j].name == users[j].name && r[j].lastActive == users[j].lastActive
    ensures forall j :: 0 <= j < |users| && r[j] != users[j] ==>
      users[j].subscription == Some(subscription) && r[j].subscription == None
      && forall m :: 0 <= m < j ==> users[m].subscription != Some(subscription)
    ensures forall j ::
      (0 <= j < |users| && users[j].subscription == Some(subscription)
       && forall m :: 0 <= m < j ==> users[m].subscription != Some(subscription))
      ==> r[j].subscription == None
  {
    match FindBySubscription(users, subscription)
    case None => users
    case Some(i) => users[i := users[i].(subscription := None)]
  }

  /**
   * The table after a failed or successful send of `subscription`: a Gone answer
   * removes it from the first row holding it; every other answer changes nothing.
   */
  function AfterSend(users: seq<User>, subscription: Descriptor, r: TransportResult): (after: seq<User>)
    ensures r != WebPushError(GONE) ==> after == users
    ensures r == WebPushError(GONE) ==> after == RemoveExpired(users, subscription)
  {
    if Classify(r) == Gone then RemoveExpired(users, subscription) else users
  }

  /**
   * The table after a send under the handler as written, `Push.ClassifyAsWritten`:
   * only an answer it reads as Gone would remove the subscription.
   */
  function AfterSendAsWritten(users: seq<User>, subscription: Descriptor, r: TransportResult): (after: seq<User>)
    ensures ClassifyAsWritten(r) != Gone ==> after == users
  {
    if ClassifyAsWritten(r) == Gone then RemoveExpired(users, subscription) else users
  }

  /**
   * As written, no answer changes the table, while the corrected handler clears a
   * subscription that answered 410 from the first row holding it.
   */
  lemma AsWrittenKeepsTable(users: seq<User>, subscription: Descriptor, r: TransportResult)
    ensures AfterSendAsWritten(users, subscription, r) == users
    ensures r == WebPushError(GONE) && FindBySubscription(users, subscription).Some? ==>
      AfterSend(users, subscription, r) != users
  {
  }

  /** The filter `User.last_active < now - timedelta(minutes=1)`: strictly older than a minute. */
  predicate Stale(u: User, now: Time): (b: bool)
    ensures b <==> now - u.lastActive > ONE_MINUTE
  {
    u.lastActive < now - ONE_MINUTE
  }

  ghost predicate StrictlyIncreasing(s: seq<nat>) {
    forall a, b :: 0 <= a < b < |s| ==> s[a] < s[b]
  }

  /** The rows the scan's query returns, as indices in table order. */
  function SelectInactive(users: seq<User>, now: Time): (sel: seq<nat>)
    ensures forall k :: 0 <= k < |sel| ==> sel[k] < |users| && Stale(users[sel[k]], now)
    ensures forall i :: 0 <= i < |users| && Stale(users[i], now) ==> i in sel
    ensures StrictlyIncreasing(sel)
  {
    if |users| == 0 then []
    else
      var last := |users| - 1;
      var init := users[..last];
      var before := SelectInactive(init, now);
      assert forall i :: 0 <= i < last ==> init[i] == users[i];
      if Stale(users[last], now) then before + [last] else before
  }

  /** The counters `successful_notifications` and `failed_notifications`. */
  datatype Tally = Tally(successful: nat, failed: nat)

  const REMINDER_TITLE := "Hey there!"
  const REMINDER_MESSAGE := "You haven't visited the app for a while. Come back!"

  /**
   * One iteration of the scan, on row i with transport answer r: a row whose
   * subscription is falsy is skipped; otherwise the send reconciles the table, and a
   * delivered push resets the row's `last_active` to `now`.
   */
  function Visit(users: seq<User>, t: Tally, i: nat, now: Time, r: TransportResult): (s: (seq<User>, Tally))
    requires i < |users|
    ensures |s.0| == |users|
    ensures forall j :: 0 <= j < |users| ==> s.0[j].lastActive == if j == i && Truthy(users[i].subscription) && r == Accepted then now else users[j].lastActive
    ensures !Truthy(users[i].subscription) ==> s == (users, t)
    ensures Truthy(users[i].subscription) ==>
      s.1 == if r == Accepted then Tally(t.successful + 1, t.failed) else Tally(t.successful, t.failed + 1)
    ensures Truthy(users[i].subscription) && r == Accepted ==> s.0[i] == users[i].(lastActive := now)
    ensures forall j :: 0 <= j < |users| ==> s.0[j].name == users[j].name
  {
    var subscription := users[i].subscription;
    if !Truthy(subscription) then (users, t)
    else
      var after := AfterSend(users, subscription.value, r);
      if r == Accepted then (after[i := after[i].(lastActive := now)], t.(successful := t.successful + 1))
      else (after, t.(failed := t.failed + 1))
  }

  /**
   * What one iteration does to subscriptions: a 410 answer to a subscribed row removes
   * that subscription from the first row holding it, and every other answer, a 403 or
   * a timeout included, changes no subscription.
   */
  lemma VisitSubscriptions(users: seq<User>, t: Tally, i: nat, now: Time, r: TransportResult)
    requires i < |users|
    ensures r != WebPushError(GONE) ==>
      forall j :: 0 <= j < |users| ==> Visit(users, t, i, now, r).0[j].subscription == users[j].subscription
    ensures Truthy(users[i].subscription) && r == WebPushError(GONE) ==>
      Visit(users, t, i, now, r).0 == RemoveExpired(users, users[i].subscription.value)
  {
  }

  ghost predicate Indices(sel: seq<nat>, users: seq<User>) {
    forall k :: 0 <= k < |sel| ==> sel[k] < |users|
  }

  /**
   * The table and counters after the scan has visited the first k selected rows;
   * `transport(i)` is the transport's answer when row i is notified.
   */
  function ScanPrefix(users: seq<User>, sel: seq<nat>, k: nat, now: Time, transport: nat -> TransportResult): (s: (seq<User>, Tally))
    requires Indices(sel, users) && k <= |sel|
    ensures |s.0| == |users|
    ensures forall j :: 0 <= j < |users| ==> s.0[j].name == users[j].name
    ensures s.1.successful + s.1.failed <= k
  {
    if k == 0 then (users, Tally(0, 0))
    else
      var prev := ScanPrefix(users, sel, k - 1, now, transport);
      Visit(prev.0, prev.1, sel[k - 1], now, transport(sel[k - 1]))
  }

  /** A step of the fold on a row without a truthy subscription changes nothing. */
  lemma ScanPrefixSkipped(users: seq<User>, sel: seq<nat>, k: nat, now: Time, transport: nat -> TransportResult,
                          current: seq<User>, t: Tally)
    requires Indices(sel, users) && k < |sel|
    requires (current, t) == ScanPrefix(users, sel, k, now, transport) && !Truthy(current[sel[k]].subscription)
    ensures ScanPrefix(users, sel, k + 1, now, transport) == (current, t)
  {
  }

  /** A step of the fold whose push is delivered resets that row's `last_active` and counts a success. */
  lemma ScanPrefixDelivered(users: seq<User>, sel: seq<nat>, k: nat, now: Time, transport: nat -> TransportResult,
                            current: seq<User>, t: Tally)
    requires Indices(sel, users) && k < |sel|
    requires (current, t) == ScanPrefix(users, sel, k, now, transport) && Truthy(current[sel[k]].subscription)
    requires transport(sel[k]) == Accepted
    ensures ScanPrefix(users, sel, k + 1, now, transport)
      == (current[sel[k] := current[sel[k]].(lastActive := now)], Tally(t.successful + 1, t.failed))
  {
  }

  /** A step of the fold whose push fails leaves the table the send leaves and counts a failure. */
  lemma ScanPrefixFailed(users: seq<User>, sel: seq<nat>, k: nat, now: Time, transport: nat -> TransportResult,
                         current: seq<User>, t: Tally)
    requires Indices(sel, users) && k < |sel|
    requires (current, t) == ScanPrefix(users, sel, k, now, transport) && Truthy(current[sel[k]].subscription)
    requires transport(sel[k]) != Accepted
    ensures ScanPrefix(users, sel, k + 1, now, transport)
      == (AfterSend(current, current[sel[k]].subscription.value, transport(sel[k])), Tally(t.successful, t.failed + 1))
  {
  }

  /** `check_inactive_users` at time `now`: the final table and counters. */
  function Scan(users: seq<User>, now: Time, transport: nat -> TransportResult): (s: (seq<User>, Tally))
    ensures |s.0| == |users|
    ensures forall j :: 0 <= j < |users| ==> s.0[j].name == users[j].name
    ensures s.1.successful + s.1.failed <= |SelectInactive(users, now)|
  {
    var sel := SelectInactive(users, now);
    ScanPrefix(users, sel, |sel|, now, transport)
  }
}
