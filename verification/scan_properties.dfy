/**
 * What the inactivity scan does to the table and its counters, proved about the
 * fold `Users.ScanPrefix` that `check_inactive_users` is verified against.
 */
module ScanProperties {

  import opened Wrappers
  import opened Subscriptions
  import opened Push
  import opened Users

  /** How one row may evolve during a scan; `visited` says whether the scan reached it. */
  ghost predicate MayBecome(before: User, after: User, now: Time, visited: bool) {
    && after.name == before.name
    && (after.lastActive == before.lastActive || (visited && after.lastActive == now))
    && (after.subscription == before.subscription || after.subscription == None)
    && (!Truthy(before.subscription) ==> after == before)
  }

  /** The number of rows among `sel` whose subscription is truthy. */
  function CountSubscribed(users: seq<User>, sel: seq<nat>): (n: nat)
    requires Indices(sel, users)
    ensures n <= |sel|
  {
    if |sel| == 0 then 0
    else
      CountSubscribed(users, sel[..|sel| - 1])
      + (if Truthy(users[sel[|sel| - 1]].subscription) then 1 else 0)
  }

  /** All the selected rows are counted exactly when every one is subscribed, none exactly when none is. */
  lemma {:induction false} CountSubscribedExtremes(users: seq<User>, sel: seq<nat>)
    requires Indices(sel, users)
    ensures CountSubscribed(users, sel) == |sel| <==> forall k :: 0 <= k < |sel| ==> Truthy(users[sel[k]].subscription)
    ensures CountSubscribed(users, sel) == 0 <==> forall k :: 0 <= k < |sel| ==> !Truthy(users[sel[k]].subscription)
  {
    if |sel| > 0 {
      var init := sel[..|sel| - 1];
      CountSubscribedExtremes(users, init);
      assert forall k :: 0 <= k < |init| ==> init[k] == sel[k];
    }
  }

  /** One iteration changes at most its own row's last_active, and only clears subscriptions. */
  lemma VisitFrame(users: seq<User>, t: Tally, i: nat, now: Time, r: TransportResult)
    requires i < |users|
    ensures |Visit(users, t, i, now, r).0| == |users|
    ensures forall j :: 0 <= j < |users| ==> MayBecome(users[j], Visit(users, t, i, now, r).0[j], now, j == i)
    ensures forall j :: i < j < |users| ==> Visit(users, t, i, now, r).0[j] == users[j]
  {
  }

  /**
   * During a scan every row keeps its name, gets last_active = now only if the scan
   * visited it, may lose its subscription but never gains one, and a row without a
   * truthy subscription is not touched at all.
   */
  lemma {:induction false} ScanFrame(users: seq<User>, sel: seq<nat>, k: nat, now: Time, transport: nat -> TransportResult)
    requires Indices(sel, users) && k <= |sel|
    ensures forall j :: 0 <= j < |users| ==>
      MayBecome(users[j], ScanPrefix(users, sel, k, now, transport).0[j], now, j in sel[..k])
  {
    if k > 0 {
      ScanFrame(users, sel, k - 1, now, transport);
      var prev := ScanPrefix(users, sel, k - 1, now, transport);
      var i := sel[k - 1];
      VisitFrame(prev.0, prev.1, i, now, transport(i));
      assert sel[..k] == sel[..k - 1] + [i];
    }
  }

  /**
   * Rows after the last visited one are still as they were: a 410 clears the first
   * row holding the subscription, which is never after the row being visited.
   */
  lemma {:induction false} ScanAhead(users: seq<User>, sel: seq<nat>, k: nat, now: Time, transport: nat -> TransportResult)
    requires Indices(sel, users) && StrictlyIncreasing(sel) && 0 < k <= |sel|
    ensures forall j :: sel[k - 1] < j < |users| ==> ScanPrefix(users, sel, k, now, transport).0[j] == users[j]
  {
    var prev := ScanPrefix(users, sel, k - 1, now, transport);
    VisitFrame(prev.0, prev.1, sel[k - 1], now, transport(sel[k - 1]));
    if k > 1 {
      ScanAhead(users, sel, k - 1, now, transport);
    }
  }

  /** Visiting row i, still as it was, adds that row's own outcome to the expected counters. */
  lemma TallyStep(users: seq<User>, current: seq<User>, t: Tally, visited: seq<nat>, i: nat, now: Time,
                  transport: nat -> TransportResult)
    requires Indices(visited, users) && i < |users| && i < |current| && current[i] == users[i]
    requires t == Tallied(users, visited, transport)
    ensures Visit(current, t, i, now, transport(i)).1 == Tallied(users, visited + [i], transport)
  {
  }

  /**
   * On every table, duplicated subscriptions included, the counters after k visits are
   * the delivered and the failed among the subscribed rows visited, so each visited row
   * that held a truthy subscription when the scan started is counted once.
   */
  lemma {:induction false} ScanTally(users: seq<User>, sel: seq<nat>, k: nat, now: Time, transport: nat -> TransportResult)
    requires Indices(sel, users) && StrictlyIncreasing(sel) && k <= |sel|
    ensures ScanPrefix(users, sel, k, now, transport).1 == Tallied(users, sel[..k], transport)
  {
    if k > 0 {
      ScanTally(users, sel, k - 1, now, transport);
      var prev := ScanPrefix(users, sel, k - 1, now, transport);
      var i := sel[k - 1];
      if k > 1 {
        assert sel[k - 2] < i;
        ScanAhead(users, sel, k - 1, now, transport);
      }
      TallyStep(users, prev.0, prev.1, sel[..k - 1], i, now, transport);
      assert sel[..k] == sel[..k - 1] + [i];
    }
  }

  /**
   * On every table, after k visits a row's last_active is `now` exactly when it was
   * visited, held a truthy subscription and the push was delivered; otherwise it is
   * what it was.
   */
  lemma {:induction false} ScanLastActive(users: seq<User>, sel: seq<nat>, k: nat, now: Time, transport: nat -> TransportResult)
    requires Indices(sel, users) && StrictlyIncreasing(sel) && k <= |sel|
    ensures forall j :: 0 <= j < |users| ==>
      ScanPrefix(users, sel, k, now, transport).0[j].lastActive
        == if j in sel[..k] && Truthy(users[j].subscription) && transport(j) == Accepted then now else users[j].lastActive
  {
    if k > 0 {
      ScanLastActive(users, sel, k - 1, now, transport);
      var prev := ScanPrefix(users, sel, k - 1, now, transport);
      var i := sel[k - 1];
      if k > 1 {
        ScanAhead(users, sel, k - 1, now, transport);
      }
      assert prev.0[i] == users[i];
      assert sel[..k] == sel[..k - 1] + [i];
      assert i !in sel[..k - 1];
    }
  }

  /**
   * One visit, to row i still as it was: a subscription it changes is cleared, by a 410
   * answered for row i, at or after the changed row, that held the same subscription.
   */
  lemma VisitClears(users: seq<User>, current: seq<User>, t: Tally, i: nat, now: Time, r: TransportResult, j: nat)
    requires i < |users| == |current| && current[i] == users[i] && j < |users|
    requires Visit(current, t, i, now, r).0[j].subscription != current[j].subscription
    ensures Visit(current, t, i, now, r).0[j].subscription == None
    ensures r == WebPushError(GONE) && j <= i && current[j].subscription == users[i].subscription
  {
    VisitSubscriptions(current, t, i, now, r);
    var after := Visit(current, t, i, now, r).0;
    assert after[j] != current[j];
  }

  /**
   * On every table, duplicated subscriptions included: a row whose subscription the
   * first k visits changed has lost it, to a 410 answered by a visited row at or after
   * it that held the same subscription. A 403, a timeout or any other answer changes
   * no subscription.
   */
  lemma {:induction false} ScanClearedByGone(users: seq<User>, sel: seq<nat>, k: nat, now: Time, transport: nat -> TransportResult)
    requires Indices(sel, users) && StrictlyIncreasing(sel) && k <= |sel|
    ensures forall j :: 0 <= j < |users| && ScanPrefix(users, sel, k, now, transport).0[j].subscription != users[j].subscription ==>
      && ScanPrefix(users, sel, k, now, transport).0[j].subscription == None
      && exists m :: 0 <= m < k && j <= sel[m] && transport(sel[m]) == WebPushError(GONE)
                     && users[sel[m]].subscription == users[j].subscription
  {
    if k > 0 {
      ScanClearedByGone(users, sel, k - 1, now, transport);
      var prev := ScanPrefix(users, sel, k - 1, now, transport);
      var i := sel[k - 1];
      if k > 1 {
        assert sel[k - 2] < i;
        ScanAhead(users, sel, k - 1, now, transport);
      }
      var after := Visit(prev.0, prev.1, i, now, transport(i)).0;
      assert ScanPrefix(users, sel, k, now, transport).0 == after;
      forall j | 0 <= j < |users| && after[j].subscription != users[j].subscription
        ensures after[j].subscription == None
        ensures exists m :: 0 <= m < k && j <= sel[m] && transport(sel[m]) == WebPushError(GONE)
                            && users[sel[m]].subscription == users[j].subscription
      {
        if prev.0[j].subscription != users[j].subscription {
          VisitFrame(prev.0, prev.1, i, now, transport(i));
        } else {
          VisitClears(users, prev.0, prev.1, i, now, transport(i), j);
          assert users[sel[k - 1]].subscription == users[j].subscription;
        }
      }
    }
  }

  /**
   * `check_inactive_users` on every table: the counters are the delivered and the
   * failed among the subscribed stale rows, and a row's last_active becomes `now`
   * exactly when it was stale, subscribed and its push was delivered.
   */
  lemma ScanCounters(users: seq<User>, now: Time, transport: nat -> TransportResult)
    ensures Scan(users, now, transport).1 == Tallied(users, SelectInactive(users, now), transport)
    ensures var after := Scan(users, now, transport).0;
      forall j :: 0 <= j < |users| ==>
        after[j].lastActive
          == if Stale(users[j], now) && Truthy(users[j].subscription) && transport(j) == Accepted
             then now else users[j].lastActive
  {
    var sel := SelectInactive(users, now);
    ScanTally(users, sel, |sel|, now, transport);
    ScanLastActive(users, sel, |sel|, now, transport);
    assert sel[..|sel|] == sel;
  }

  /**
   * `check_inactive_users` on every table: a subscription the scan changed was cleared,
   * by a 410 answered by a stale row at or after it that held the same subscription.
   */
  lemma ScanSubscriptions(users: seq<User>, now: Time, transport: nat -> TransportResult)
    ensures var after := Scan(users, now, transport).0;
      forall j :: 0 <= j < |users| && after[j].subscription != users[j].subscription ==>
        && after[j].subscription == None
        && exists m :: j <= m < |users| && Stale(users[m], now) && transport(m) == WebPushError(GONE)
                       && users[m].subscription == users[j].subscription
  {
    var sel := SelectInactive(users, now);
    var after := Scan(users, now, transport).0;
    ScanClearedByGone(users, sel, |sel|, now, transport);
    forall j | 0 <= j < |users| && after[j].subscription != users[j].subscription
      ensures exists m :: j <= m < |users| && Stale(users[m], now) && transport(m) == WebPushError(GONE)
                          && users[m].subscription == users[j].subscription
    {
      var k :| 0 <= k < |sel| && j <= sel[k] && transport(sel[k]) == WebPushError(GONE)
               && users[sel[k]].subscription == users[j].subscription;
      assert Stale(users[sel[k]], now);
    }
  }

  /** Distinct truthy subscriptions: no other row holds the same subscription as a subscribed row. */
  ghost predicate DistinctSubscriptions(users: seq<User>) {
    forall a, b :: 0 <= a < |users| && 0 <= b < |users| && a != b && Truthy(users[a].subscription)
      ==> users[a].subscription != users[b].subscription
  }

  /**
   * The row a notification turns `u` into, on its own: delivered resets last_active,
   * a 410 clears the subscription, anything else leaves it; unsubscribed rows are skipped.
   */
  function Notified(u: User, r: TransportResult, now: Time): (v: User)
    ensures v.name == u.name
  {
    if !Truthy(u.subscription) then u
    else if r == Accepted then u.(lastActive := now)
    else if r == WebPushError(GONE) then u.(subscription := None)
    else u
  }

  /** The table once the rows in `visited` have each been notified on their own. */
  function Expected(users: seq<User>, visited: seq<nat>, now: Time, transport: nat -> TransportResult): (r: seq<User>)
    ensures |r| == |users|
  {
    seq(|users|, j requires 0 <= j < |users| =>
      if j in visited then Notified(users[j], transport(j), now) else users[j])
  }

  /** The counters expected from notifying the rows in `visited`. */
  function Tallied(users: seq<User>, visited: seq<nat>, transport: nat -> TransportResult): (t: Tally)
    requires Indices(visited, users)
    ensures t.successful + t.failed == CountSubscribed(users, visited)
  {
    if |visited| == 0 then Tally(0, 0)
    else
      var i := visited[|visited| - 1];
      Counted(Tallied(users, visited[..|visited| - 1], transport), users[i], transport(i))
  }

  /** The counters after notifying `u`: a success, a failure, or no change when it is skipped. */
  function Counted(t: Tally, u: User, r: TransportResult): Tally {
    if !Truthy(u.subscription) then t
    else if r == Accepted then t.(successful := t.successful + 1)
    else t.(failed := t.failed + 1)
  }

  /** With distinct subscriptions, a 410 for row i clears row i itself. */
  lemma GoneClearsOwnRow(users: seq<User>, visited: seq<nat>, i: nat, now: Time, transport: nat -> TransportResult)
    requires DistinctSubscriptions(users)
    requires i < |users| && i !in visited && Truthy(users[i].subscription)
    ensures FindBySubscription(Expected(users, visited, now, transport), users[i].subscription.value) == Some(i)
  {
    var before := Expected(users, visited, now, transport);
    var d := users[i].subscription.value;
    assert before[i] == users[i];
    forall m | 0 <= m < i
      ensures before[m].subscription != Some(d)
    {
      assert users[m].subscription != users[i].subscription;
    }
  }

  /** Visiting one more row, not yet visited, extends the expected table by that row. */
  lemma VisitExpected(users: seq<User>, visited: seq<nat>, i: nat, t: Tally, now: Time, transport: nat -> TransportResult)
    requires DistinctSubscriptions(users)
    requires i < |users| && i !in visited
    ensures Visit(Expected(users, visited, now, transport), t, i, now, transport(i)).0
      == Expected(users, visited + [i], now, transport)
  {
  }

  /**
   * With distinct subscriptions, the scan of the first k selected rows yields exactly
   * the table in which each of those rows was notified on its own (its counters are
   * those of `ScanTally`, which holds on every table).
   */
  lemma {:induction false} ScanDistinct(users: seq<User>, sel: seq<nat>, k: nat, now: Time, transport: nat -> TransportResult)
    requires Indices(sel, users) && StrictlyIncreasing(sel) && k <= |sel|
    requires DistinctSubscriptions(users)
    ensures ScanPrefix(users, sel, k, now, transport).0 == Expected(users, sel[..k], now, transport)
  {
    if k == 0 {
      assert Expected(users, [], now, transport) == users;
    } else {
      ScanDistinct(users, sel, k - 1, now, transport);
      var i := sel[k - 1];
      assert sel[..k] == sel[..k - 1] + [i];
      assert i !in sel[..k - 1];
      var prev := ScanPrefix(users, sel, k - 1, now, transport);
      VisitExpected(users, sel[..k - 1], i, prev.1, now, transport);
    }
  }

  /**
   * `check_inactive_users` as a whole: names survive, only selected rows (strictly
   * older than a minute) can get last_active = now, subscriptions can only be cleared,
   * unsubscribed rows are untouched, the counters add up to the subscribed selected
   * rows, and unique names stay unique.
   */
  lemma ScanEffects(users: seq<User>, now: Time, transport: nat -> TransportResult)
    ensures var after := Scan(users, now, transport).0;
      && |after| == |users|
      && (forall j :: 0 <= j < |users| ==> after[j].name == users[j].name)
      && (forall j :: 0 <= j < |users| && !Stale(users[j], now) ==> after[j].lastActive == users[j].lastActive)
      && (forall j :: 0 <= j < |users| ==> after[j].lastActive == users[j].lastActive || after[j].lastActive == now)
      && (forall j :: 0 <= j < |users| ==> after[j].subscription in {users[j].subscription, None})
      && (forall j :: 0 <= j < |users| && !Truthy(users[j].subscription) ==> after[j] == users[j])
      && (UniqueNames(users) ==> UniqueNames(after))
    ensures var t := Scan(users, now, transport).1;
      t.successful + t.failed == CountSubscribed(users, SelectInactive(users, now))
  {
    var sel := SelectInactive(users, now);
    ScanFrame(users, sel, |sel|, now, transport);
    ScanTally(users, sel, |sel|, now, transport);
    assert sel[..|sel|] == sel;
  }

  /**
   * The summary of a finished scan: the counters add up to the subscribed stale rows,
   * and every row whose last_active changed now holds `now` and is not stale.
   */
  lemma ScanSummary(users: seq<User>, now: Time, transport: nat -> TransportResult, after: seq<User>, t: Tally)
    requires (after, t) == Scan(users, now, transport)
    ensures t.successful + t.failed == CountSubscribed(users, SelectInactive(users, now))
    ensures |after| == |users|
    ensures forall j :: 0 <= j < |after| && after[j].lastActive != users[j].lastActive ==>
      after[j].lastActive == now && !Stale(after[j], now)
  {
    ScanEffects(users, now, transport);
  }

  /** A row whose last_active the scan changed is no longer stale at the same `now`. */
  lemma ResetRowsAreFresh(users: seq<User>, now: Time, transport: nat -> TransportResult, j: nat)
    requires j < |users|
    requires Scan(users, now, transport).0[j].lastActive != users[j].lastActive
    ensures !Stale(Scan(users, now, transport).0[j], now)
  {
    ScanEffects(users, now, transport);
  }

  /**
   * With distinct subscriptions, each stale subscribed row is notified exactly once:
   * delivered means last_active = now (so it is not stale any more), a 410 clears its
   * subscription, any other failure leaves the row as it was; and the counters are
   * the delivered and the failed among the subscribed stale rows.
   */
  lemma ScanOutcome(users: seq<User>, now: Time, transport: nat -> TransportResult)
    requires DistinctSubscriptions(users)
    ensures var after := Scan(users, now, transport).0;
      forall j :: 0 <= j < |users| ==>
        after[j] == if Stale(users[j], now) then Notified(users[j], transport(j), now) else users[j]
    ensures Scan(users, now, transport).1 == Tallied(users, SelectInactive(users, now), transport)
  {
    var sel := SelectInactive(users, now);
    ScanDistinct(users, sel, |sel|, now, transport);
    ScanCounters(users, now, transport);
    assert sel[..|sel|] == sel;
  }
}
